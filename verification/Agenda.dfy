/** Agenda compilation: the stop points of one run (crates/dh-vmm/src/agenda.rs). */
module Agenda {
  import opened Common
  import opened VirtualTime

  datatype FinalStop = IcountBudget(budget: u64) | VnsBudget(budget: u64) | HardCap(budget: u64)

  datatype StopKind = BudgetStop | HardCapStop

  type NonZero = x: u64 | x > 0 witness 1

  datatype AgendaInputs = AgendaInputs(
    start: u64, scheduled: seq<u64>, injections: seq<u64>,
    epochLen: Option<NonZero>, goalPeriod: Option<NonZero>, finalStop: FinalStop, clock: Clock)

  datatype StopPoint = StopPoint(
    icount: u64, inputs: seq<nat>, injections: seq<nat>,
    epochHash: bool, goalPoll: bool, finalStop: Option<StopKind>)

  /** The last point of a run: where and why it stops. */
  datatype Last = Last(at: u64, kind: StopKind)

  /** The budget rule shared by both compilers; `None` is `BudgetOverflow`. */
  function FinalPoint(inp: AgendaInputs): (r: Option<Last>)
    ensures r.Some? ==> r.value.at >= inp.start && (r.value.kind.HardCapStop? <==> inp.finalStop.HardCap?)
    ensures !inp.finalStop.VnsBudget? ==>
              && (r.Some? <==> inp.start + inp.finalStop.budget <= U64_MAX)
              && (r.Some? ==> r.value.at == inp.start + inp.finalStop.budget)
  {
    match inp.finalStop
    case IcountBudget(b) =>
      (match CheckedAdd(inp.start, b) case Some(f) => Some(Last(f, BudgetStop)) case None => None)
    case HardCap(b) =>
      (match CheckedAdd(inp.start, b) case Some(f) => Some(Last(f, HardCapStop)) case None => None)
    case VnsBudget(b) =>
      var now := inp.clock.vns(inp.start);
      if now.None? then None else
      var target := CheckedAdd(now.value, b);
      if target.None? then None else
      var f := inp.clock.icount(target.value);
      if f.None? then None else Some(Last(Max(f.value, inp.start), BudgetStop))
  }

  /** A positive virtual-time budget ends at the least instruction count that reaches it. */
  lemma VnsBudgetIsLeast(inp: AgendaInputs, c: ClockRatio)
    requires inp.clock == ClockOf(c)
    requires inp.finalStop.VnsBudget? && inp.finalStop.budget > 0 && FinalPoint(inp).Some?
    ensures LeastReaching(c, Floor(c, inp.start) + inp.finalStop.budget, inp.start, FinalPoint(inp).value.at)
  {
    var target := Floor(c, inp.start) + inp.finalStop.budget;
    IcountForVnsIsLeast(c, target);
    var f := IcountForVns(c, target).value;
    if f <= inp.start { FloorMonotone(c, f, inp.start); }
  }

  // ---- what an agenda is ------------------------------------------------------

  /** How much of each source has been merged: a prefix of the two lists, the two grids up to a count. */
  datatype Sources = Sources(ins: nat, injs: nat, epochs: u64, goals: u64)

  function All(inp: AgendaInputs, last: Last): Sources
  {
    Sources(|inp.scheduled|, |inp.injections|, last.at, last.at)
  }

  /** Ascending indices below `n` at which `xs` holds `at`. */
  function IndicesOf(xs: seq<u64>, n: nat, at: u64): (r: seq<nat>)
  {
    if n == 0 || n > |xs| then []
    else IndicesOf(xs, n - 1, at) + (if xs[n - 1] == at then [n - 1] else [])
  }

  /** Stated by descent, so that grid membership stays out of nonlinear arithmetic; see `IsMultipleMeans`. */
  predicate IsMultiple(n: nat, len: NonZero)
    decreases n
  {
    if n < len then n == 0 else IsMultiple(n - len, len)
  }

  predicate OnEpochGrid(inp: AgendaInputs, at: u64)
  {
    inp.epochLen.Some? && at > inp.start && IsMultiple(at, inp.epochLen.value)
  }

  predicate OnGoalGrid(inp: AgendaInputs, at: u64)
  {
    inp.goalPeriod.Some? && at > inp.start && IsMultiple(at - inp.start, inp.goalPeriod.value)
  }

  predicate InWindow(inp: AgendaInputs, last: Last, at: u64)
  {
    inp.start < at <= last.at
  }

  /** Everything the merged sources ask for at one instruction count. */
  function PointAt(inp: AgendaInputs, last: Last, src: Sources, at: u64): StopPoint
  {
    StopPoint(at,
              if InWindow(inp, last, at) then IndicesOf(inp.scheduled, src.ins, at) else [],
              if InWindow(inp, last, at) then IndicesOf(inp.injections, src.injs, at) else [],
              InWindow(inp, last, at) && OnEpochGrid(inp, at) && at <= src.epochs,
              InWindow(inp, last, at) && OnGoalGrid(inp, at) && at <= src.goals,
              if at == last.at then Some(last.kind) else None)
  }

  function Blank(at: u64): StopPoint { StopPoint(at, [], [], false, false, None) }

  /** What is due at each count. */
  type Plan = u64 -> StopPoint

  function PlanOf(inp: AgendaInputs, last: Last, src: Sources): Plan
  {
    (at: u64) => PointAt(inp, last, src, at)
  }

  /** The whole of a run's sources. */
  function FullPlan(inp: AgendaInputs, last: Last): Plan
  {
    PlanOf(inp, last, All(inp, last))
  }

  predicate Due(plan: Plan, at: u64)
  {
    plan(at) != Blank(at)
  }

  predicate Ascending(ps: seq<StopPoint>)
  {
    forall i, j :: 0 <= i < j < |ps| ==> ps[i].icount < ps[j].icount
  }

  /** The agenda of a plan: the due counts in ascending order, each with everything due there. */
  ghost predicate IsAgenda(plan: Plan, ps: seq<StopPoint>)
  {
    && Ascending(ps)
    && (forall p :: p in ps ==> Due(plan, p.icount) && p == plan(p.icount))
    && (forall at: u64 :: Due(plan, at) ==> plan(at) in ps)
  }

  predicate AscendingNats(a: seq<nat>)
  {
    forall i, j :: 0 <= i < j < |a| ==> a[i] < a[j]
  }

  lemma {:induction false} IndicesOfSpec(xs: seq<u64>, n: nat, at: u64)
    requires n <= |xs|
    ensures AscendingNats(IndicesOf(xs, n, at))
    ensures forall i: nat :: i in IndicesOf(xs, n, at) <==> i < n && xs[i] == at
  {
    if n > 0 {
      IndicesOfSpec(xs, n - 1, at);
      var r := IndicesOf(xs, n - 1, at);
      forall i | 0 <= i < |r| ensures r[i] < n - 1 { assert r[i] in r; }
    }
  }

  /** There is only one agenda. */
  lemma AgendaUnique(plan: Plan, ps: seq<StopPoint>, qs: seq<StopPoint>)
    requires IsAgenda(plan, ps) && IsAgenda(plan, qs)
    ensures ps == qs
  {
    SameAscending(ps, qs, (p: StopPoint) => p.icount);
  }

  // ---- grids -------------------------------------------------------------------

  /** No multiple of `len` lies strictly between a multiple and the next. */
  lemma {:induction false} MultipleGap(a: nat, b: nat, len: NonZero)
    requires IsMultiple(a, len) && IsMultiple(b, len) && a < b
    ensures a + len <= b
    decreases a
  {
    if a >= len { MultipleGap(a - len, b - len, len); }
  }

  lemma {:induction false} ProductIsMultiple(q: nat, len: NonZero)
    ensures q * len >= 0 && IsMultiple(q * len, len)
  {
    if q > 0 {
      ProductIsMultiple(q - 1, len);
      assert q * len == (q - 1) * len + len;
    }
  }

  /** The descent agrees with the source's remainder test. */
  lemma {:induction false} IsMultipleMeans(n: nat, len: NonZero)
    ensures IsMultiple(n, len) <==> n % len == 0
    decreases n
  {
    if n >= len {
      SameRemainder(n, len);
      IsMultipleMeans(n - len, len);
    }
  }

  lemma NextProduct(start: nat, len: NonZero)
    ensures var q := start / len; q * len >= 0 && (q + 1) * len == q * len + len && q * len <= start < q * len + len
  {}

  /** The first grid point above `start`, computed by division. */
  lemma FirstMultiple(start: nat, len: NonZero)
    ensures var first := (start / len + 1) * len;
            && start < first
            && IsMultiple(first, len)
            && forall at: nat :: start < at && IsMultiple(at, len) ==> first <= at
  {
    NextProduct(start, len);
    var q := start / len;
    var below, first := q * len, (q + 1) * len;
    ProductIsMultiple(q, len);
    ProductIsMultiple(q + 1, len);
    forall at: nat | start < at && IsMultiple(at, len) ensures first <= at {
      MultipleGap(below, at, len);
    }
  }

  predicate OnGrid(inp: AgendaInputs, polls: bool, at: u64)
  {
    if polls then OnGoalGrid(inp, at) else OnEpochGrid(inp, at)
  }

  /** `next` is the first point of the grid in (lo, hi]. */
  ghost predicate NextOnGrid(inp: AgendaInputs, polls: bool, lo: int, hi: u64, next: Option<u64>)
  {
    match next
    case Some(e) => lo < e <= hi && OnGrid(inp, polls, e) && forall at: u64 :: lo < at < e ==> !OnGrid(inp, polls, at)
    case None => forall at: u64 :: lo < at <= hi ==> !OnGrid(inp, polls, at)
  }

  // ---- the streaming iterator -----------------------------------------------------

  type Cursor = seq<(u64, nat)>

  predicate Before(a: (u64, nat), b: (u64, nat))
  {
    a.0 < b.0 || (a.0 == b.0 && a.1 < b.1)
  }

  predicate SortedCursor(q: Cursor)
  {
    forall i, j :: 0 <= i < j < |q| ==> Before(q[i], q[j])
  }

  ghost predicate Queued(xs: seq<u64>, q: Cursor, i: nat)
    requires i < |xs|
  {
    (xs[i], i) in q
  }

  /** The cursor holds exactly the entries of `xs` in (lo, hi], by (count, index). */
  ghost predicate Pending(xs: seq<u64>, lo: int, hi: u64, q: Cursor)
  {
    && SortedCursor(q)
    && (forall k :: 0 <= k < |q| ==> q[k].1 < |xs| && xs[q[k].1] == q[k].0 && lo < q[k].0 <= hi)
    && (forall i {:trigger Queued(xs, q, i)} :: 0 <= i < |xs| && lo < xs[i] <= hi ==> Queued(xs, q, i))
  }

  method SortInsert(q: Cursor, x: (u64, nat)) returns (r: Cursor)
    requires SortedCursor(q) && x !in q
    ensures SortedCursor(r)
    ensures forall y :: y in r <==> y in q || y == x
  {
    var k := 0;
    while k < |q| && Before(q[k], x)
      invariant k <= |q|
      invariant forall i :: 0 <= i < k ==> Before(q[i], x)
    {
      k := k + 1;
    }
    r := q[..k] + [x] + q[k..];
    assert q == q[..k] + q[k..];
    assert forall i :: k <= i < |q| ==> Before(x, q[i]) by {
      if k < |q| { assert q[k] in q; }
    }
  }

  /** Filter to the window and sort. */
  method Windowed(xs: seq<u64>, lo: u64, hi: u64) returns (q: Cursor)
    ensures Pending(xs, lo, hi, q)
  {
    q := [];
    for i := 0 to |xs|
      invariant SortedCursor(q)
      invariant forall y :: y in q <==> y.1 < i && xs[y.1] == y.0 && lo < y.0 <= hi
    {
      if lo < xs[i] <= hi {
        q := SortInsert(q, (xs[i], i));
      }
    }
    forall k | 0 <= k < |q| ensures q[k].1 < |xs| && xs[q[k].1] == q[k].0 && lo < q[k].0 <= hi {
      assert q[k] in q;
    }
  }

  predicate IsHead(at: u64, q: Cursor)
  {
    |q| > 0 && q[0].0 == at
  }

  /** Pop every entry at `at`. */
  method PopAt(ghost xs: seq<u64>, ghost lo: int, ghost hi: u64, q: Cursor, at: u64)
    returns (idxs: seq<nat>, rest: Cursor)
    requires Pending(xs, lo, hi, q) && lo <= at <= hi && (lo == at ==> at == hi)
    requires |q| > 0 ==> at <= q[0].0
    ensures idxs == if lo < at then IndicesOf(xs, |xs|, at) else []
    ensures Pending(xs, at, hi, rest)
    ensures IsHead(at, q) ==> idxs != []
  {
    var n := 0;
    idxs := [];
    while n < |q| && q[n].0 == at
      invariant n <= |q| && |idxs| == n
      invariant n == 0 ==> idxs == []
      invariant forall k :: 0 <= k < n ==> q[k].0 == at && idxs[k] == q[k].1
    {
      idxs := idxs + [q[n].1];
      n := n + 1;
    }
    rest := q[n..];
    assert forall k :: n <= k < |q| ==> at < q[k].0;
    if lo < at { PoppedAll(xs, lo, hi, q, at, n, idxs); }
  }

  lemma PoppedIndices(xs: seq<u64>, lo: int, hi: u64, q: Cursor, at: u64, n: nat, idxs: seq<nat>)
    requires Pending(xs, lo, hi, q) && lo < at <= hi && |idxs| == n <= |q|
    requires forall k :: 0 <= k < n ==> q[k].0 == at && idxs[k] == q[k].1
    requires forall k :: n <= k < |q| ==> at < q[k].0
    ensures idxs == IndicesOf(xs, |xs|, at)
  {
    var due := IndicesOf(xs, |xs|, at);
    IndicesOfSpec(xs, |xs|, at);
    forall j | 0 <= j < |due| ensures due[j] in idxs {
      assert due[j] in due;
      assert Queued(xs, q, due[j]);
      var k :| 0 <= k < |q| && q[k] == (at, due[j]);
      assert idxs[k] == due[j];
    }
    forall k | 0 <= k < n ensures idxs[k] in due { assert xs[q[k].1] == q[k].0; }
    SameAscending(idxs, due, (i: nat) => i);
  }

  lemma PoppedAll(xs: seq<u64>, lo: int, hi: u64, q: Cursor, at: u64, n: nat, idxs: seq<nat>)
    requires Pending(xs, lo, hi, q) && lo < at <= hi && |idxs| == n <= |q|
    requires forall k :: 0 <= k < n ==> q[k].0 == at && idxs[k] == q[k].1
    requires forall k :: n <= k < |q| ==> at < q[k].0
    ensures idxs == IndicesOf(xs, |xs|, at)
    ensures Pending(xs, at, hi, q[n..])
  {
    PoppedIndices(xs, lo, hi, q, at, n, idxs);
    forall i | 0 <= i < |xs| && at < xs[i] <= hi ensures Queued(xs, q[n..], i) {
      assert Queued(xs, q, i);
      var k :| 0 <= k < |q| && q[k] == (xs[i], i);
      assert q[n..][k - n] == q[k];
    }
  }


  /** The epoch grid is anchored at count zero; its first point above the start is a division away. */
  method FirstEpoch(inp: AgendaInputs, last: Last) returns (len: u64, first: Option<u64>)
    requires last.at >= inp.start
    requires !(inp.start == U64_MAX && inp.epochLen == Some(1))  // `start / len + 1` overflows there
    ensures len == Spacing(inp, false)
    ensures NextOnGrid(inp, false, inp.start, last.at, first)
  {
    len, first := 0, None;
    if inp.epochLen.Some? {
      len := inp.epochLen.value;
      EpochProductInRange(inp.start, len);
      first := CheckedMul(inp.start / len + 1, len);
      FirstMultiple(inp.start, len);
      if first.Some? && first.value > last.at { first := None; }
    }
  }

  /** The poll grid is anchored at the start of the run. */
  method FirstGoal(inp: AgendaInputs, last: Last) returns (period: u64, first: Option<u64>)
    requires last.at >= inp.start
    ensures period == Spacing(inp, true)
    ensures NextOnGrid(inp, true, inp.start, last.at, first)
  {
    period, first := 0, None;
    if inp.goalPeriod.Some? {
      period := inp.goalPeriod.value;
      first := CheckedAdd(inp.start, period);
      FirstPoll(inp);
      if first.Some? && first.value > last.at { first := None; }
    }
  }

  /** Take the grid past `at`: one step if `at` is on it, nothing otherwise. */
  method AdvanceGrid(ghost inp: AgendaInputs, ghost polls: bool, ghost lo: int, hi: u64,
                     next: Option<u64>, at: u64, step: u64)
    returns (hit: bool, next': Option<u64>)
    requires NextOnGrid(inp, polls, lo, hi, next) && lo <= at <= hi
    requires next.Some? ==> at <= next.value && step == Spacing(inp, polls)
    ensures lo < at ==> hit == OnGrid(inp, polls, at)
    ensures hit ==> lo < at
    ensures hit == (next == Some(at))
    ensures NextOnGrid(inp, polls, at, hi, next')
  {
    hit, next' := false, next;
    if next == Some(at) {
      hit := true;
      next' := CheckedAdd(at, step);
      if next'.Some? && next'.value > hi { next' := None; }
      GridStep(inp, polls, at);
    }
  }

  ghost function Spacing(inp: AgendaInputs, polls: bool): u64
  {
    if polls && inp.goalPeriod.Some? then inp.goalPeriod.value
    else if !polls && inp.epochLen.Some? then inp.epochLen.value else 0
  }

  lemma GridStep(inp: AgendaInputs, polls: bool, at: u64)
    requires OnGrid(inp, polls, at)
    ensures var step := Spacing(inp, polls);
            && (at + step <= U64_MAX ==> OnGrid(inp, polls, at + step))
            && forall b: u64 :: at < b < at + step ==> !OnGrid(inp, polls, b)
  {
    var step := Spacing(inp, polls);
    var base := if polls then inp.start else 0;
    forall b: u64 | at < b && OnGrid(inp, polls, b) ensures at + step <= b {
      MultipleGap(at - base, b - base, step);
    }
  }

  datatype Cursors = Cursors(ins: Cursor, injs: Cursor, epoch: Option<u64>, goal: Option<u64>)

  /** The four sources stand just past `lo`. */
  ghost predicate CursorsAt(inp: AgendaInputs, last: Last, lo: int, c: Cursors)
  {
    && Pending(inp.scheduled, lo, last.at, c.ins)
    && Pending(inp.injections, lo, last.at, c.injs)
    && NextOnGrid(inp, false, lo, last.at, c.epoch)
    && NextOnGrid(inp, true, lo, last.at, c.goal)
  }

  predicate AtHead(at: u64, c: Cursors)
  {
    IsHead(at, c.ins) || IsHead(at, c.injs) || c.epoch == Some(at) || c.goal == Some(at)
  }

  predicate AtMostHeads(at: u64, c: Cursors)
  {
    && (|c.ins| > 0 ==> at <= c.ins[0].0)
    && (|c.injs| > 0 ==> at <= c.injs[0].0)
    && (c.epoch.Some? ==> at <= c.epoch.value)
    && (c.goal.Some? ==> at <= c.goal.value)
  }

  /** The merge minimum. */
  function MergeHead(final: u64, c: Cursors): (at: u64)
    ensures at <= final && AtMostHeads(at, c) && (at == final || AtHead(at, c))
  {
    var a := if |c.ins| > 0 then Min(final, c.ins[0].0) else final;
    var b := if |c.injs| > 0 then Min(a, c.injs[0].0) else a;
    var e := if c.epoch.Some? then Min(b, c.epoch.value) else b;
    if c.goal.Some? then Min(e, c.goal.value) else e
  }

  class AgendaIter {
    var last: Last
    var inputs: Cursor
    var injections: Cursor
    var epochNext: Option<u64>
    var epochLen: u64
    var goalNext: Option<u64>
    var goalPeriod: u64
    var done: bool
    ghost var inp: AgendaInputs
    ghost var floor: int  // the greatest count already yielded

    ghost function Lo(): int
      reads this
    {
      Max(floor, inp.start)
    }

    /** Nothing has been yielded yet. */
    ghost predicate Fresh()
      reads this
    {
      floor == if last.at == inp.start then inp.start - 1 else inp.start
    }

    ghost predicate Valid()
      reads this
    {
      && done == (floor >= last.at)
      && inp.start - 1 <= floor <= last.at
      && (floor < inp.start <==> last.at == inp.start && !done)
      && epochLen == Spacing(inp, false)
      && goalPeriod == Spacing(inp, true)
      && CursorsAt(inp, last, Lo(), Cursors(inputs, injections, epochNext, goalNext)) == true  // proved as one fact
    }

    /** `AgendaIter::new` on inputs whose budget does not overflow. */
    constructor (inp: AgendaInputs)
      requires FinalPoint(inp).Some?
      requires !(inp.start == U64_MAX && inp.epochLen == Some(1))
      ensures Valid() && this.inp == inp && this.last == FinalPoint(inp).value
      ensures Fresh()
    {
      var last := FinalPoint(inp).value;
      var ins := Windowed(inp.scheduled, inp.start, last.at);
      var injs := Windowed(inp.injections, inp.start, last.at);
      var len, epoch := FirstEpoch(inp, last);
      var period, poll := FirstGoal(inp, last);
      inputs, injections := ins, injs;
      epochLen, epochNext, goalPeriod, goalNext := len, epoch, period, poll;
      this.last, done := last, false;
      this.inp := inp;
      floor := if last.at == inp.start then inp.start - 1 else inp.start;
    }

    /** `AgendaIter::next`: the least count still due, with everything due there. */
    method Next() returns (r: Option<StopPoint>)
      requires Valid()
      modifies this
      ensures Valid() && inp == old(inp) && last == old(last)
      ensures old(done) ==> r.None? && floor == old(floor)
      ensures !old(done) ==>
                && inp.start <= floor <= last.at
                && r == Some(PointAt(inp, last, All(inp, last), floor))
                && floor > old(floor)
                && Due(FullPlan(inp, last), floor)
                && NothingBetween(inp, last, old(Lo()), floor)
    {
      if done { return None; }
      var cursors := Cursors(inputs, injections, epochNext, goalNext);
      var at, point, rest := NextPoint(inp, last, Lo(), cursors, epochLen, goalPeriod);
      inputs, injections, epochNext, goalNext := rest.ins, rest.injs, rest.epoch, rest.goal;
      done := at == last.at;
      floor := at;
      return Some(point);
    }
  }

  lemma HeadAbove(inp: AgendaInputs, last: Last, lo: int, c: Cursors, at: u64)
    requires CursorsAt(inp, last, lo, c) && lo <= last.at && (at == last.at || AtHead(at, c))
    ensures lo < at || at == last.at
  {}

  /** The merge minimum of the cursors, and the point there. */
  method NextPoint(ghost inp: AgendaInputs, last: Last, ghost lo: int, c: Cursors, epochLen: u64, goalPeriod: u64)
    returns (at: u64, point: StopPoint, rest: Cursors)
    requires inp.start <= lo <= last.at && (lo == last.at ==> lo == inp.start) && CursorsAt(inp, last, lo, c)
    requires epochLen == Spacing(inp, false) && goalPeriod == Spacing(inp, true)
    ensures lo <= at <= last.at && (at == lo ==> at == inp.start == last.at)
    ensures point == PointAt(inp, last, All(inp, last), at) && Due(FullPlan(inp, last), at)
    ensures NothingBetween(inp, last, lo, at) == true
    ensures CursorsAt(inp, last, at, rest) == true
  {
    at := MergeHead(last.at, c);
    HeadAbove(inp, last, lo, c, at);
    MergeMinimum(inp, last, lo, c, at);
    point, rest := TakePoint(inp, last, lo, c, epochLen, goalPeriod, at);
  }

  /** Consume everything at the merge minimum `at`. */
  method TakePoint(ghost inp: AgendaInputs, last: Last, ghost lo: int, c: Cursors,
                   epochLen: u64, goalPeriod: u64, at: u64)
    returns (point: StopPoint, rest: Cursors)
    requires inp.start <= lo <= at <= last.at && (at == lo ==> at == inp.start == last.at)
    requires CursorsAt(inp, last, lo, c) && AtMostHeads(at, c)
    requires epochLen == Spacing(inp, false) && goalPeriod == Spacing(inp, true)
    requires AtHead(at, c) || at == last.at
    ensures point == PointAt(inp, last, All(inp, last), at) && point != Blank(at)
    ensures CursorsAt(inp, last, at, rest)
  {
    var idxs, ins := PopAt(inp.scheduled, lo, last.at, c.ins, at);
    var jdxs, injs := PopAt(inp.injections, lo, last.at, c.injs, at);
    var hash, epoch := AdvanceGrid(inp, false, lo, last.at, c.epoch, at, epochLen);
    var poll, goal := AdvanceGrid(inp, true, lo, last.at, c.goal, at, goalPeriod);
    point := StopPoint(at, idxs, jdxs, hash, poll, if at == last.at then Some(last.kind) else None);
    rest := Cursors(ins, injs, epoch, goal);
  }

  /** A count below the cursor's head is not in the list. */
  lemma NoIndices(xs: seq<u64>, lo: int, hi: u64, q: Cursor, at: u64)
    requires Pending(xs, lo, hi, q) && lo < at <= hi
    requires |q| > 0 ==> at < q[0].0
    ensures IndicesOf(xs, |xs|, at) == []
  {
    var r := IndicesOf(xs, |xs|, at);
    assert |r| > 0 ==> r[0] in r;
    IndicesOfSpec(xs, |xs|, at);
    forall i: nat | i < |xs| ensures xs[i] != at {
      if Queued(xs, q, i) { HeadIsLeast(q, (xs[i], i)); }
    }
  }

  lemma HeadIsLeast(q: Cursor, y: (u64, nat))
    requires SortedCursor(q) && y in q
    ensures q[0].0 <= y.0
  {
    var k :| 0 <= k < |q| && q[k] == y;
  }

  /** Nothing is due between the last yielded count and the merge minimum. */
  lemma MergeMinimum(inp: AgendaInputs, last: Last, lo: int, c: Cursors, at: u64)
    requires inp.start <= lo && at <= last.at
    requires CursorsAt(inp, last, lo, c) && AtMostHeads(at, c)
    ensures NothingBetween(inp, last, lo, at)
  {
    forall b: u64 | lo < b < at ensures !Due(FullPlan(inp, last), b) {
      NoIndices(inp.scheduled, lo, last.at, c.ins, b);
      NoIndices(inp.injections, lo, last.at, c.injs, b);
      NothingDue(inp, last, b, OnGrid(inp, false, b), OnGrid(inp, true, b));
    }
  }

  ghost predicate NothingBetween(inp: AgendaInputs, last: Last, lo: int, at: u64)
  {
    forall b: u64 :: lo < b < at ==> !Due(FullPlan(inp, last), b)
  }

  lemma NothingDue(inp: AgendaInputs, last: Last, b: u64, epoch: bool, goal: bool)
    requires IndicesOf(inp.scheduled, |inp.scheduled|, b) == []
    requires IndicesOf(inp.injections, |inp.injections|, b) == []
    requires epoch == OnGrid(inp, false, b) && goal == OnGrid(inp, true, b)
    ensures b != last.at && !epoch && !goal ==> !Due(FullPlan(inp, last), b)
  {}

  lemma EpochProductInRange(start: u64, len: NonZero)
    requires !(start == U64_MAX && len == 1)
    ensures start / len + 1 <= U64_MAX
  {}

  lemma FirstPoll(inp: AgendaInputs)
    requires inp.goalPeriod.Some?
    ensures var p := inp.goalPeriod.value;
            && (inp.start + p <= U64_MAX ==> OnGoalGrid(inp, inp.start + p))
            && forall at: u64 :: inp.start < at < inp.start + p ==> !OnGoalGrid(inp, at)
  {
    assert IsMultiple(0, inp.goalPeriod.value);
  }

  /** `compile`: collect the streaming iterator. */
  method Compile(inp: AgendaInputs) returns (r: Option<seq<StopPoint>>)
    requires !(inp.start == U64_MAX && inp.epochLen == Some(1))
    ensures r.None? <==> FinalPoint(inp).None?
    ensures r.Some? ==> IsAgenda(FullPlan(inp, FinalPoint(inp).value), r.value)
  {
    if FinalPoint(inp).None? { return None; }
    var iter := new AgendaIter(inp);
    var ps := [];
    ghost var last, plan := iter.last, FullPlan(inp, iter.last);
    while !iter.done
      invariant fresh(iter) && iter.Valid() && iter.inp == inp && iter.last == last
      invariant IsAgendaUpTo(plan, ps, iter.floor)
      decreases last.at - iter.floor
    {
      ghost var was, lo := iter.floor, iter.Lo();
      var p := iter.Next();
      ExtendAgenda(plan, ps, was, lo, iter.floor);
      ps := ps + [p.value];
    }
    NothingBeyond(inp, last);
    return Some(ps);
  }

  /** The points up to `floor` are complete. */
  ghost predicate IsAgendaUpTo(plan: Plan, ps: seq<StopPoint>, floor: int)
  {
    && Ascending(ps)
    && (forall p :: p in ps ==> p.icount <= floor && Due(plan, p.icount) && p == plan(p.icount))
    && (forall at: u64 :: Due(plan, at) && at <= floor ==> plan(at) in ps)
  }

  lemma ExtendAgenda(plan: Plan, ps: seq<StopPoint>, was: int, lo: int, at: u64)
    requires IsAgendaUpTo(plan, ps, was) && was < at && Due(plan, at) && plan(at).icount == at
    requires forall b: u64 :: lo < b < at ==> !Due(plan, b)
    requires forall b: u64 :: was < b <= lo ==> !Due(plan, b) || b == at
    ensures IsAgendaUpTo(plan, ps + [plan(at)], at)
  {
    assert forall k :: 0 <= k < |ps| ==> ps[k] in ps;
  }

  lemma NothingBeyond(inp: AgendaInputs, last: Last)
    requires inp.start <= last.at
    ensures forall at: u64 :: at > last.at || at < inp.start ==> !Due(FullPlan(inp, last), at)
  {}

  /** An agenda ends in its final stop, and has no other. */
  lemma FinalStopIsLast(inp: AgendaInputs, last: Last, ps: seq<StopPoint>)
    requires last.at >= inp.start && IsAgenda(FullPlan(inp, last), ps)
    ensures |ps| > 0 && ps[|ps| - 1].icount == last.at
    ensures forall k :: 0 <= k < |ps| ==> (ps[k].finalStop.Some? <==> k == |ps| - 1)
    ensures forall k :: 0 <= k < |ps| ==> inp.start < ps[k].icount <= last.at || ps[k].icount == last.at
  {
    var plan := FullPlan(inp, last);
    forall p | p in ps ensures InRange(inp, last, p) {
      DuePoint(inp, last, p.icount);
    }
    assert Due(plan, last.at);
    EndsAtLast(inp, last, ps, plan(last.at));
  }

  predicate InRange(inp: AgendaInputs, last: Last, p: StopPoint)
  {
    && (inp.start < p.icount <= last.at || p.icount == last.at)
    && (p.finalStop.Some? <==> p.icount == last.at)
  }

  lemma EndsAtLast(inp: AgendaInputs, last: Last, ps: seq<StopPoint>, p: StopPoint)
    requires Ascending(ps) && p in ps && p.icount == last.at && forall q :: q in ps ==> InRange(inp, last, q)
    ensures ps[|ps| - 1].icount == last.at
    ensures forall k :: 0 <= k < |ps| ==> InRange(inp, last, ps[k]) && (ps[k].finalStop.Some? <==> k == |ps| - 1)
  {
    assert ps[|ps| - 1] in ps;
    var i :| 0 <= i < |ps| && ps[i] == p;
    forall k | 0 <= k < |ps| ensures InRange(inp, last, ps[k]) {
      assert ps[k] in ps;
    }
  }

  lemma DuePoint(inp: AgendaInputs, last: Last, at: u64)
    requires last.at >= inp.start && Due(FullPlan(inp, last), at)
    ensures InRange(inp, last, FullPlan(inp, last)(at))
  {}

  // ---- the materializing compiler it replaced ----------------------------------------

  datatype Edit = MarkFinal(kind: StopKind) | AddInput(idx: nat) | AddInjection(idx: nat) | MarkEpoch | MarkPoll

  function ApplyEdit(p: StopPoint, e: Edit): StopPoint
  {
    match e
    case MarkFinal(kind) => p.(finalStop := Some(kind))
    case AddInput(i) => p.(inputs := p.inputs + [i])
    case AddInjection(i) => p.(injections := p.injections + [i])
    case MarkEpoch => p.(epochHash := true)
    case MarkPoll => p.(goalPoll := true)
  }

  /** `binary_search_by_key` on the count. */
  method BinarySearch(ps: seq<StopPoint>, at: u64) returns (found: bool, i: nat)
    requires Ascending(ps)
    ensures i <= |ps|
    ensures found ==> i < |ps| && ps[i].icount == at
    ensures !found ==>
              (forall k :: 0 <= k < i ==> ps[k].icount < at) && (forall k :: i <= k < |ps| ==> at < ps[k].icount)
  {
    var lo, hi := 0, |ps|;
    while lo < hi
      invariant lo <= hi <= |ps|
      invariant forall k :: 0 <= k < lo ==> ps[k].icount < at
      invariant forall k :: hi <= k < |ps| ==> at < ps[k].icount
    {
      var mid := (lo + hi) / 2;
      if ps[mid].icount < at { lo := mid + 1; }
      else if at < ps[mid].icount { hi := mid; }
      else { return true, mid; }
    }
    return false, lo;
  }

  /** `plan'` asks for one thing more than `plan`: the edit `e` at count `at`. */
  ghost predicate OneMore(plan: Plan, plan': Plan, at: u64, e: Edit)
  {
    && plan'(at) == ApplyEdit(plan(at), e) != Blank(at)
    && (forall b: u64 :: plan(b).icount == b)
    && (forall b: u64 :: b != at ==> plan'(b) == plan(b))
  }

  lemma EditFound(plan: Plan, plan': Plan, ps: seq<StopPoint>, at: u64, e: Edit, i: nat)
    requires OneMore(plan, plan', at, e) && IsAgenda(plan, ps)
    requires i < |ps| && ps[i].icount == at
    ensures IsAgenda(plan', ps[i := ApplyEdit(ps[i], e)])
  {
    var qs := ps[i := ApplyEdit(ps[i], e)];
    assert ps[i] in ps;
    assert qs[i] in qs;
    assert forall k :: 0 <= k < |ps| ==> qs[k].icount == ps[k].icount;
    forall p ensures p in qs <==> p == qs[i] || (p in ps && p.icount != at) {
      if p in qs {
        var k :| 0 <= k < |qs| && qs[k] == p;
        if k != i { assert ps[k] in ps && ps[k].icount != ps[i].icount; }
      }
      if p in ps && p.icount != at {
        var k :| 0 <= k < |ps| && ps[k] == p;
        assert qs[k] == p;
      }
    }
    forall b: u64 | Due(plan', b) ensures plan'(b) in qs {
      assert b == at || plan(b) in ps;
    }
  }

  lemma InsertAscending(ps: seq<StopPoint>, x: StopPoint, i: nat)
    requires Ascending(ps) && i <= |ps|
    requires forall k :: 0 <= k < i ==> ps[k].icount < x.icount
    requires forall k :: i <= k < |ps| ==> x.icount < ps[k].icount
    ensures Ascending(ps[..i] + [x] + ps[i..])
  {}

  lemma InsertNew(plan: Plan, plan': Plan, ps: seq<StopPoint>, at: u64, e: Edit, i: nat)
    requires OneMore(plan, plan', at, e) && IsAgenda(plan, ps)
    requires i <= |ps|
    requires forall k :: 0 <= k < i ==> ps[k].icount < at
    requires forall k :: i <= k < |ps| ==> at < ps[k].icount
    ensures IsAgenda(plan', ps[..i] + [ApplyEdit(Blank(at), e)] + ps[i..])
  {
    var x := ApplyEdit(Blank(at), e);
    var qs := ps[..i] + [x] + ps[i..];
    InsertAscending(ps, x, i);
    assert ps == ps[..i] + ps[i..];
    assert forall p :: p in qs <==> p in ps || p == x;
    assert plan(at) !in ps;
    assert plan(at) == Blank(at);
  }

  /** One push into the sorted vector merges one more source entry into the agenda. */
  method Push(ghost plan: Plan, ghost plan': Plan, ps: seq<StopPoint>, at: u64, e: Edit)
    returns (qs: seq<StopPoint>)
    requires OneMore(plan, plan', at, e) && IsAgenda(plan, ps)
    ensures IsAgenda(plan', qs)
  {
    var found, i := BinarySearch(ps, at);
    if found {
      EditFound(plan, plan', ps, at, e, i);
      qs := ps[i := ApplyEdit(ps[i], e)];
    } else {
      InsertNew(plan, plan', ps, at, e, i);
      qs := ps[..i] + [ApplyEdit(Blank(at), e)] + ps[i..];
    }
  }

  lemma OneMoreInput(inp: AgendaInputs, last: Last, i: nat, injs: nat, epochs: u64, goals: u64)
    requires i < |inp.scheduled|
    ensures var at := inp.scheduled[i];
            var plan := PlanOf(inp, last, Sources(i, injs, epochs, goals));
            var plan' := PlanOf(inp, last, Sources(i + 1, injs, epochs, goals));
            if InWindow(inp, last, at) then OneMore(plan, plan', at, AddInput(i))
            else forall b: u64 :: plan'(b) == plan(b)
  {}

  lemma OneMoreInjection(inp: AgendaInputs, last: Last, ins: nat, i: nat, epochs: u64, goals: u64)
    requires i < |inp.injections|
    ensures var at := inp.injections[i];
            var plan := PlanOf(inp, last, Sources(ins, i, epochs, goals));
            var plan' := PlanOf(inp, last, Sources(ins, i + 1, epochs, goals));
            if InWindow(inp, last, at) then OneMore(plan, plan', at, AddInjection(i))
            else forall b: u64 :: plan'(b) == plan(b)
  {}

  /** Two plans that agree everywhere have the same agendas. */
  lemma SamePlan(plan: Plan, plan': Plan, ps: seq<StopPoint>)
    requires IsAgenda(plan, ps) && forall b: u64 :: plan'(b) == plan(b)
    ensures IsAgenda(plan', ps)
  {
    assert forall b: u64 :: Due(plan', b) == Due(plan, b);
  }

  /** Taking a grid from one of its points to the next adds exactly that point. */
  lemma OneMoreEpoch(inp: AgendaInputs, last: Last, src: Sources, at: u64)
    requires NextOnGrid(inp, false, src.epochs, last.at, Some(at)) && inp.start <= src.epochs
    ensures OneMore(PlanOf(inp, last, src), PlanOf(inp, last, src.(epochs := at)), at, MarkEpoch)
  {
    assert OnGrid(inp, false, at);
    assert forall b: u64 :: OnEpochGrid(inp, b) == OnGrid(inp, false, b);
  }

  lemma OneMorePoll(inp: AgendaInputs, last: Last, src: Sources, at: u64)
    requires NextOnGrid(inp, true, src.goals, last.at, Some(at)) && inp.start <= src.goals
    ensures OneMore(PlanOf(inp, last, src), PlanOf(inp, last, src.(goals := at)), at, MarkPoll)
  {
    assert OnGrid(inp, true, at);
    assert forall b: u64 :: OnGoalGrid(inp, b) == OnGrid(inp, true, b);
  }

  lemma GridDone(inp: AgendaInputs, last: Last, src: Sources, polls: bool)
    requires NextOnGrid(inp, polls, if polls then src.goals else src.epochs, last.at, None)
    requires inp.start <= src.epochs <= last.at && inp.start <= src.goals <= last.at
    ensures forall b: u64 :: PlanOf(inp, last, if polls then src.(goals := last.at) else src.(epochs := last.at))(b)
                             == PlanOf(inp, last, src)(b)
  {
    assert forall b: u64 :: OnGoalGrid(inp, b) == OnGrid(inp, true, b);
    assert forall b: u64 :: OnEpochGrid(inp, b) == OnGrid(inp, false, b);
  }

  function NoPlan(): Plan
  {
    (at: u64) => Blank(at)
  }

  lemma OnlyFinal(inp: AgendaInputs, last: Last)
    requires inp.start <= last.at
    ensures OneMore(NoPlan(), PlanOf(inp, last, Sources(0, 0, inp.start, inp.start)), last.at, MarkFinal(last.kind))
    ensures IsAgenda(NoPlan(), [])
  {}

  method PushFinal(inp: AgendaInputs, last: Last) returns (ps: seq<StopPoint>)
    requires inp.start <= last.at
    ensures IsAgenda(PlanOf(inp, last, Sources(0, 0, inp.start, inp.start)), ps)
  {
    OnlyFinal(inp, last);
    ps := Push(NoPlan(), PlanOf(inp, last, Sources(0, 0, inp.start, inp.start)), [], last.at, MarkFinal(last.kind));
  }

  /** The scheduled inputs of the materializing compiler, pushed one at a time. */
  method PushInputs(inp: AgendaInputs, last: Last, ps0: seq<StopPoint>) returns (ps: seq<StopPoint>)
    requires inp.start <= last.at
    requires IsAgenda(PlanOf(inp, last, Sources(0, 0, inp.start, inp.start)), ps0)
    ensures IsAgenda(PlanOf(inp, last, Sources(|inp.scheduled|, 0, inp.start, inp.start)), ps)
  {
    ps := ps0;
    var s := inp.start;
    for i := 0 to |inp.scheduled|
      invariant IsAgenda(PlanOf(inp, last, Sources(i, 0, s, s)), ps)
    {
      var at := inp.scheduled[i];
      ghost var plan, plan' := PlanOf(inp, last, Sources(i, 0, s, s)), PlanOf(inp, last, Sources(i + 1, 0, s, s));
      OneMoreInput(inp, last, i, 0, s, s);
      if at > s && at <= last.at {
        ps := Push(plan, plan', ps, at, AddInput(i));
      } else {
        SamePlan(plan, plan', ps);
      }
    }
  }

  method PushInjections(inp: AgendaInputs, last: Last, ps0: seq<StopPoint>) returns (ps: seq<StopPoint>)
    requires inp.start <= last.at
    requires IsAgenda(PlanOf(inp, last, Sources(|inp.scheduled|, 0, inp.start, inp.start)), ps0)
    ensures IsAgenda(PlanOf(inp, last, Sources(|inp.scheduled|, |inp.injections|, inp.start, inp.start)), ps)
  {
    ps := ps0;
    var s, n := inp.start, |inp.scheduled|;
    for i := 0 to |inp.injections|
      invariant IsAgenda(PlanOf(inp, last, Sources(n, i, s, s)), ps)
    {
      var at := inp.injections[i];
      ghost var plan, plan' := PlanOf(inp, last, Sources(n, i, s, s)), PlanOf(inp, last, Sources(n, i + 1, s, s));
      OneMoreInjection(inp, last, n, i, s, s);
      if at > s && at <= last.at {
        ps := Push(plan, plan', ps, at, AddInjection(i));
      } else {
        SamePlan(plan, plan', ps);
      }
    }
  }

  /** `n` is the first multiple of the epoch length above `e`, as an unbounded number. */
  ghost predicate NextEpoch(inp: AgendaInputs, e: u64, n: nat)
  {
    && inp.epochLen.Some? && e < n
    && IsMultiple(n, inp.epochLen.value)
    && forall at: u64 :: OnGrid(inp, false, at) && e < at ==> n <= at
  }

  /** `k * len` is the next epoch after `e`. */
  ghost predicate EpochIndex(inp: AgendaInputs, e: u64, k: nat)
  {
    inp.epochLen.Some? && k * inp.epochLen.value >= 0 && NextEpoch(inp, e, k * inp.epochLen.value)
  }

  lemma FirstIndex(inp: AgendaInputs)
    requires inp.epochLen.Some?
    ensures EpochIndex(inp, inp.start, inp.start / inp.epochLen.value + 1) == true
  {
    FirstMultiple(inp.start, inp.epochLen.value);
  }

  lemma NextIndex(inp: AgendaInputs, e: u64, k: nat, at: u64)
    requires EpochIndex(inp, e, k) && inp.start <= e && at == k * inp.epochLen.value
    ensures e < at && OnGrid(inp, false, at) && EpochIndex(inp, at, k + 1) == true
  {
    var len := inp.epochLen.value;
    assert (k + 1) * len == at + len;
    GridStep(inp, false, at);
    assert IsMultiple(at + len, len);
  }

  lemma NoMoreEpochs(inp: AgendaInputs, e: u64, k: nat, hi: u64)
    requires EpochIndex(inp, e, k) && k * inp.epochLen.value > hi
    ensures forall at: u64 :: OnGrid(inp, false, at) && e < at ==> hi < at
  {}

  lemma LastIndex(inp: AgendaInputs, e: u64, k: nat)
    requires EpochIndex(inp, e, k) && k > U64_MAX
    ensures k * inp.epochLen.value > U64_MAX
  {
    MulMonotone(1, inp.epochLen.value, k);
  }

  /** One epoch of the materializing compiler, unless it lies past the end. */
  method PushEpoch(inp: AgendaInputs, last: Last, ghost src: Sources, ps0: seq<StopPoint>, k: u64)
    returns (ps: seq<StopPoint>, at: Option<u64>)
    requires inp.start <= src.epochs <= last.at && src.goals == inp.start
    requires EpochIndex(inp, src.epochs, k) && IsAgenda(PlanOf(inp, last, src), ps0)
    ensures at.None? ==> ps == ps0 && forall x: u64 :: OnGrid(inp, false, x) && src.epochs < x ==> last.at < x
    ensures at.Some? ==> src.epochs < at.value <= last.at && EpochIndex(inp, at.value, k + 1) == true
    ensures at.Some? ==> IsAgenda(PlanOf(inp, last, src.(epochs := at.value)), ps) == true
  {
    at := CheckedMul(k, inp.epochLen.value);
    if at.None? || at.value > last.at {
      NoMoreEpochs(inp, src.epochs, k, last.at);
      return ps0, None;
    }
    NextIndex(inp, src.epochs, k, at.value);
    ghost var plan, plan' := PlanOf(inp, last, src), PlanOf(inp, last, src.(epochs := at.value));
    OneMoreEpoch(inp, last, src, at.value);
    ps := Push(plan, plan', ps0, at.value, MarkEpoch);
  }

  /** The epoch grid of the materializing compiler: `k * len` for ascending `k`. */
  method PushEpochs(inp: AgendaInputs, last: Last, src: Sources, ps0: seq<StopPoint>) returns (ps: seq<StopPoint>)
    requires inp.start <= last.at && src.epochs == src.goals == inp.start
    requires !(inp.start == U64_MAX && inp.epochLen == Some(1))
    requires IsAgenda(PlanOf(inp, last, src), ps0)
    ensures IsAgenda(PlanOf(inp, last, src.(epochs := last.at)), ps)
  {
    ps := ps0;
    ghost var e := inp.start;
    if inp.epochLen.Some? {
      EpochProductInRange(inp.start, inp.epochLen.value);
      var k: u64 := inp.start / inp.epochLen.value + 1;
      FirstIndex(inp);
      while true
        invariant inp.start <= e <= last.at && EpochIndex(inp, e, k)
        invariant IsAgenda(PlanOf(inp, last, src.(epochs := e)), ps)
        decreases last.at - e
      {
        var at;
        ps, at := PushEpoch(inp, last, src.(epochs := e), ps, k);
        if at.None? { break; }
        e := at.value;
        if k == U64_MAX {
          LastIndex(inp, e, k + 1);
          NoMoreEpochs(inp, e, k + 1, last.at);
          break;
        }
        k := k + 1;
      }
    }
    GridDone(inp, last, src.(epochs := e), false);
    SamePlan(PlanOf(inp, last, src.(epochs := e)), PlanOf(inp, last, src.(epochs := last.at)), ps);
  }

  /** The poll grid of the materializing compiler. */
  method PushPolls(inp: AgendaInputs, last: Last, src: Sources, ps0: seq<StopPoint>) returns (ps: seq<StopPoint>)
    requires inp.start <= last.at && src.epochs == last.at && src.goals == inp.start
    requires IsAgenda(PlanOf(inp, last, src), ps0)
    ensures IsAgenda(PlanOf(inp, last, src.(goals := last.at)), ps)
  {
    ps := ps0;
    ghost var e := inp.start;
    if inp.goalPeriod.Some? {
      var period := inp.goalPeriod.value;
      var at: Option<u64> := CheckedAdd(inp.start, period);
      FirstPoll(inp);
      while at.Some? && at.value <= last.at
        invariant inp.start <= e <= last.at && NextOnGrid(inp, true, e, U64_MAX, at)
        invariant IsAgenda(PlanOf(inp, last, src.(goals := e)), ps)
        decreases last.at - e
      {
        ghost var plan, plan' := PlanOf(inp, last, src.(goals := e)), PlanOf(inp, last, src.(goals := at.value));
        OneMorePoll(inp, last, src.(goals := e), at.value);
        ps := Push(plan, plan', ps, at.value, MarkPoll);
        e := at.value;
        GridStep(inp, true, at.value);
        at := CheckedAdd(at.value, period);
      }
    }
    GridDone(inp, last, src.(goals := e), true);
    SamePlan(PlanOf(inp, last, src.(goals := e)), PlanOf(inp, last, src.(goals := last.at)), ps);
  }

  /** `compile_reference`. */
  method CompileReference(inp: AgendaInputs) returns (r: Option<seq<StopPoint>>)
    requires !(inp.start == U64_MAX && inp.epochLen == Some(1))
    ensures r.None? <==> FinalPoint(inp).None?
    ensures r.Some? ==> IsAgenda(FullPlan(inp, FinalPoint(inp).value), r.value)
  {
    if FinalPoint(inp).None? { return None; }
    var last := FinalPoint(inp).value;
    var ps := PushFinal(inp, last);
    ps := PushInputs(inp, last, ps);
    ps := PushInjections(inp, last, ps);
    var src := Sources(|inp.scheduled|, |inp.injections|, inp.start, inp.start);
    ps := PushEpochs(inp, last, src, ps);
    ps := PushPolls(inp, last, src.(epochs := last.at), ps);
    return Some(ps);
  }

  /** The streaming agenda is the materialized one, point for point. */
  method CompileBoth(inp: AgendaInputs) returns (a: Option<seq<StopPoint>>, b: Option<seq<StopPoint>>)
    requires !(inp.start == U64_MAX && inp.epochLen == Some(1))
    ensures a == b
  {
    a := Compile(inp);
    b := CompileReference(inp);
    if a.Some? { AgendaUnique(FullPlan(inp, FinalPoint(inp).value), a.value, b.value); }
  }
}
