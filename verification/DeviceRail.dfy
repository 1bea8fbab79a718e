/** The recording rail: device state and log records change together
    (crates/dh-vmm/src/recording.rs, crates/dh-devices/src/pad.rs, crates/dh-devices/src/ctx.rs). */
module DeviceRail {
  import opened Common
  import opened Bytes
  import opened LogFormat
  import opened LogHeader
  import opened RecordBodies
  import opened LogWriting
  import LogReader

  const NUM_PORTS: nat := 4
  const REG_IRQ_VECTOR: u64 := 0x18
  const REG_FRAME_COUNTER: u64 := 0x1C

  type Latch = l: seq<u32> | |l| == 4 witness [0, 0, 0, 0]

  // ---- what a log says about the pad -----------------------------------------------------

  /** The pad as far as the log determines it. */
  datatype PadState = PadState(latch: Latch, frame: u32)

  function PadAfterRecord(s: PadState, r: Record): PadState
    requires RecordOk(r)
  {
    match BodyOf(r)
    case PadSet(port, buttons, _) => if port < NUM_PORTS then s.(latch := s.latch[port := buttons]) else s
    case FrameMark(frame) => s.(frame := frame)
    case _ => s
  }

  /** The fold of a log's PAD_SET and FRAME_MARK records over an initial state. */
  function PadAfter(s0: PadState, rs: Records): PadState
    requires WellFormed(rs)
  {
    match rs
    case Empty => s0
    case More(before, r) => PadAfterRecord(PadAfter(s0, before), r)
  }

  // ---- the pad ---------------------------------------------------------------------------

  class PvPad {
    var latch: Latch
    var irqVector: byte
    var frameCounter: u32

    constructor ()
      ensures latch == [0, 0, 0, 0] && irqVector == 0 && frameCounter == 0
    {
      latch, irqVector, frameCounter := [0, 0, 0, 0], 0, 0;
    }

    function State(): PadState
      reads this
    {
      PadState(latch, frameCounter)
    }

    /** `apply_pad_set`: the edge vector, if the latch changed and the guest enabled one. */
    method ApplyPadSet(port: byte, buttons: u32) returns (ok: bool, vector: Option<byte>)
      modifies this`latch
      ensures ok <==> port < NUM_PORTS
      ensures latch == if ok then old(latch)[port := buttons] else old(latch)
      ensures vector == if ok && old(latch)[port] != buttons && irqVector != 0 then Some(irqVector) else None
    {
      if port >= NUM_PORTS { return false, None; }
      var changed := latch[port] != buttons;
      latch := latch[port := buttons];
      return true, if changed && irqVector != 0 then Some(irqVector) else None;
    }

    /** `mmio_write`: a write of the frame counter is logged as it happens. */
    method MmioWrite(off: u64, data: bytes, ctx: DevCtx)
      requires ctx.log.Valid() && ctx.fault.None?
      modifies this`irqVector, this`frameCounter, ctx`fault, ctx.log
      ensures ctx.log.Valid()
      ensures var marks := |data| == 4 && off == REG_FRAME_COUNTER;
              && frameCounter == (if marks then GetU32(data) else old(frameCounter))
              && irqVector == (if |data| == 4 && off == REG_IRQ_VECTOR then GetU32(data) % 256 else old(irqVector))
              && ctx.fault == (if marks
                               then old(ErrorOf(ctx.log.recordCount, ctx.log.lastIcount,
                                                Op(ctx.icount, 0, FrameMark(GetU32(data)))))
                               else None)
              && (if marks && ctx.fault.None? then
                    && Logged(old(ctx.log.rs), ctx.log.rs, old(ctx.log.recordCount),
                              Op(ctx.icount, 0, FrameMark(GetU32(data))))
                    && ctx.log.recordCount == old(ctx.log.recordCount) + 1 && ctx.log.lastIcount == ctx.icount
                  else unchanged(ctx.log))
    {
      if |data| != 4 { return; }
      var value := GetU32(data);
      if off == REG_IRQ_VECTOR {
        irqVector := value % 256;
      } else if off == REG_FRAME_COUNTER {
        frameCounter := value;
        ctx.Log(FrameMark(value));
      }
    }
  }

  /** One record more: that of `op`. */
  ghost predicate Logged(before: Records, rs: Records, n: nat, op: Op)
  {
    rs.More? && rs.before == before && (Carries(rs.last, op, n) == true)
  }

  /** The device context of one dispatch: it stamps records, and its first log failure sticks. */
  class DevCtx {
    const icount: u64
    const log: LogWriter
    var fault: Option<WriteError>

    constructor (icount: u64, log: LogWriter)
      ensures this.icount == icount && this.log == log && fault == None
    {
      this.icount, this.log, this.fault := icount, log, None;
    }

    /** Log a body at this boundary. */
    method Log(body: RecordBody)
      requires log.Valid() && Callable(Op(icount, 0, body))
      modifies this`fault, log
      ensures log.Valid()
      ensures var e := old(ErrorOf(log.recordCount, log.lastIcount, Op(icount, 0, body)));
              && fault == (if old(fault).Some? then old(fault) else e)
              && (if e.Some? then unchanged(log)
                  else
                    && Logged(old(log.rs), log.rs, old(log.recordCount), Op(icount, 0, body))
                    && log.recordCount == old(log.recordCount) + 1 && log.lastIcount == icount)
    {
      var e := log.Append(Op(icount, 0, body));
      if e.Some? && fault.None? { fault := e; }
    }
  }

  // ---- the rail -----------------------------------------------------------------------------

  /** The log accounts for the pad. */
  ghost predicate Tracks(s0: PadState, rs: Records, s: PadState)
  {
    WellFormed(rs) && s == PadAfter(s0, rs)
  }

  /** What a call adds to the log moves the pad state as its body says. */
  lemma TracksMore(s0: PadState, before: Records, rs: Records, n: nat, op: Op, s: PadState)
    requires Tracks(s0, before, s) && WellFormed(rs) && Logged(before, rs, n, op)
    ensures (op.body.PadSet? && op.body.port < NUM_PORTS ==>
               Tracks(s0, rs, s.(latch := s.latch[op.body.port := op.body.buttons])))
    ensures (op.body.FrameMark? ==> Tracks(s0, rs, s.(frame := op.body.frameIndex)))
    ensures (!op.body.PadSet? && !op.body.FrameMark? ==> Tracks(s0, rs, s))
  {}

  datatype NetError = NoRxBuffer | FrameTooBig | MemFault

  /** The receive half of the network device's registers. */
  datatype NetRegs = NetRegs(bufGpa: u64, cap: u32, vector: u32)

  /** The device's `apply_net_rx`: the vector to inject, if the guest enabled one. What it takes, the log does. */
  function NetAnswer(net: NetRegs, memLen: nat, frame: bytes): (r: Result<Option<byte>, NetError>)
    ensures r.Ok? ==> BodyError(NetRx(frame)).None?
    ensures BodyError(NetRx(frame)).Some? ==> r == Err(if net.bufGpa == 0 then NoRxBuffer else FrameTooBig)
  {
    if net.bufGpa == 0 then Err(NoRxBuffer)
    else if |frame| == 0 || |frame| > MAX_NET_RX_FRAME || |frame| > net.cap then Err(FrameTooBig)
    else if net.bufGpa + |frame| > memLen then Err(MemFault)
    else Ok(if net.vector != 0 then Some(net.vector % 256) else None)
  }

  datatype RecordError = BadPort | NetFailed(net: NetError) | LogFailed(error: WriteError) | UndrainedIrqs(count: nat)

  /** One thing that happens to a rail. `OtherExit` is the dispatch of an exit to any other device, which may
      log records and queue vectors of its own; `NetInput` comes with the registers and the memory that the network
      device has then, and `OtherInput` is a record that run control lands itself. */
  datatype Step =
    | PadWrite(icount: u64, off: u64, data: bytes)
    | OtherExit(icount: u64, bodies: seq<RecordBody>, vectors: seq<byte>)
    | PadInput(icount: u64, rip: u64, port: byte, buttons: u32, frameHint: u32)
    | NetInput(icount: u64, rip: u64, frame: bytes, net: NetRegs, memLen: nat)
    | OtherInput(op: Op)
    | DrainIrqs

  /** What a step does to the pad. */
  function PadBy(s: PadState, step: Step): PadState
  {
    match step
    case PadWrite(_, off, data) => if |data| == 4 && off == REG_FRAME_COUNTER then s.(frame := GetU32(data)) else s
    case PadInput(_, _, port, buttons, _) => if port < NUM_PORTS then s.(latch := s.latch[port := buttons]) else s
    case _ => s
  }

  function PadByAll(s0: PadState, steps: seq<Step>): PadState
  {
    if steps == [] then s0 else PadBy(PadByAll(s0, steps[..|steps| - 1]), steps[|steps| - 1])
  }

  /** A rail: its pad, the guest's vector for the pad, the queued vectors, and the log's count and last position. */
  datatype RailState = RailState(pad: PadState, irqVector: byte, irqs: seq<byte>, count: nat, last: u64)

  /** The first of these records, logged one after the other at `icount`, that is refused, and why. */
  function FaultOf(count: nat, last: u64, icount: u64, bodies: seq<RecordBody>): Option<WriteError>
  {
    if bodies == [] then None
    else
      var k := |bodies| - 1;
      var e := FaultOf(count, last, icount, bodies[..k]);
      if e.Some? then e else ErrorOf(count + k, if k > 0 then icount else last, Op(icount, 0, bodies[k]))
  }

  function ErrorIf(e: Option<WriteError>): Option<RecordError>
  {
    if e.Some? then Some(LogFailed(e.value)) else None
  }

  /** Why a step fails, if it does. */
  function StepError(s: RailState, step: Step): Option<RecordError>
  {
    match step
    case PadWrite(icount, off, data) =>
      if |data| == 4 && off == REG_FRAME_COUNTER
      then ErrorIf(ErrorOf(s.count, s.last, Op(icount, 0, FrameMark(GetU32(data))))) else None
    case OtherExit(icount, bodies, _) => ErrorIf(FaultOf(s.count, s.last, icount, bodies))
    case PadInput(icount, rip, port, buttons, hint) =>
      if port >= NUM_PORTS then Some(BadPort)
      else ErrorIf(ErrorOf(s.count, s.last, Op(icount, rip, PadSet(port, buttons, hint))))
    case NetInput(icount, rip, frame, net, memLen) =>
      var answer := NetAnswer(net, memLen, frame);
      if answer.Err? then Some(NetFailed(answer.error))
      else ErrorIf(ErrorOf(s.count, s.last, Op(icount, rip, NetRx(frame))))
    case OtherInput(op) => ErrorIf(ErrorOf(s.count, s.last, op))
    case DrainIrqs => None
  }

  /** The vector that a changed button raises, if the guest enabled one. */
  function EdgeVector(s: RailState, port: byte, buttons: u32): Option<byte>
    requires port < NUM_PORTS
  {
    if s.pad.latch[port] != buttons && s.irqVector != 0 then Some(s.irqVector) else None
  }

  /** The rail after a step that does not fail. */
  function StepTo(s: RailState, step: Step): RailState
    requires StepError(s, step).None?
  {
    var t := s.(pad := PadBy(s.pad, step));
    match step
    case PadWrite(icount, off, data) =>
      if |data| != 4 then t
      else if off == REG_IRQ_VECTOR then t.(irqVector := GetU32(data) % 256)
      else if off == REG_FRAME_COUNTER then t.(count := s.count + 1, last := icount)
      else t
    case OtherExit(icount, bodies, vectors) =>
      t.(irqs := s.irqs + vectors, count := s.count + |bodies|, last := if bodies == [] then s.last else icount)
    case PadInput(icount, _, port, buttons, _) =>
      var edge := EdgeVector(s, port, buttons);
      t.(irqs := s.irqs + (if edge.Some? then [edge.value] else []), count := s.count + 1, last := icount)
    case NetInput(icount, _, frame, net, memLen) =>
      var edge := NetAnswer(net, memLen, frame).value;
      t.(irqs := s.irqs + (if edge.Some? then [edge.value] else []), count := s.count + 1, last := icount)
    case OtherInput(op) => t.(count := s.count + 1, last := op.icount)
    case DrainIrqs => t.(irqs := [])
  }

  /** A run up to its first failing step. */
  function RunTo(s0: RailState, steps: seq<Step>): Result<RailState, RecordError>
  {
    if steps == [] then Ok(s0)
    else
      var r := RunTo(s0, steps[..|steps| - 1]);
      if r.Err? then r
      else
        var e := StepError(r.value, steps[|steps| - 1]);
        if e.Some? then Err(e.value) else Ok(StepTo(r.value, steps[|steps| - 1]))
  }

  /** Why a whole recording fails, if it does: a step, vectors left over, or the seal. */
  function RecordingError(s0: RailState, steps: seq<Step>, endIcount: u64): Option<RecordError>
  {
    match RunTo(s0, steps)
    case Err(e) => Some(e)
    case Ok(s) => if s.irqs != [] then Some(UndrainedIrqs(|s.irqs|))
                  else ErrorIf(FramingError(s.count, s.last, 40, endIcount))
  }

  predicate PadFree(op: Op)
  {
    Callable(op) && !op.body.PadSet? && !op.body.FrameMark?
  }

  predicate Possible(step: Step)
  {
    match step
    case OtherExit(icount, bodies, _) => forall b :: b in bodies ==> PadFree(Op(icount, 0, b))
    case OtherInput(op) => PadFree(op)
    case _ => true
  }

  class Rail {
    const pad: PvPad
    const log: LogWriter
    var irqs: seq<byte>
    ghost const s0: PadState

    constructor (pad: PvPad, log: LogWriter)
      requires log.Valid() && log.rs == Empty
      ensures this.pad == pad && this.log == log && s0 == pad.State() && irqs == [] && Valid()
    {
      this.pad, this.log, this.irqs, this.s0 := pad, log, [], pad.State();
    }

    ghost predicate Valid()
      reads this, pad, log
    {
      log.Valid() && (Tracks(s0, log.rs, pad.State()) == true)  // proved as one fact
    }

    function State(): RailState
      reads this, pad, log
    {
      RailState(pad.State(), pad.irqVector, irqs, log.recordCount, log.lastIcount)
    }

    /** `service_exit`, for a write to the pad's window. */
    method ServicePadWrite(icount: u64, off: u64, data: bytes) returns (e: Option<RecordError>)
      requires Valid()
      modifies pad`irqVector, pad`frameCounter, log
      ensures pad.State() == PadBy(old(pad.State()), PadWrite(icount, off, data))
      ensures e == StepError(old(State()), PadWrite(icount, off, data))
      ensures e.None? ==> State() == StepTo(old(State()), PadWrite(icount, off, data))
      // The counter moves even when the mark is then refused.
      ensures log.Valid() && (Valid() <==> e.None? || pad.State() == old(pad.State()))
    {
      var ctx := new DevCtx(icount, log);
      pad.MmioWrite(off, data, ctx);
      if ctx.fault.Some? { return Some(LogFailed(ctx.fault.value)); }
      if |data| == 4 && off == REG_FRAME_COUNTER {
        LogIsWellFormed(log);
        TracksMore(s0, old(log.rs), log.rs, old(log.recordCount), Op(icount, 0, FrameMark(GetU32(data))),
                   old(pad.State()));
      }
      return None;
    }

    /** `service_exit`, for anything else. */
    method ServiceOther(icount: u64, bodies: seq<RecordBody>, vectors: seq<byte>) returns (e: Option<RecordError>)
      requires Valid() && forall b :: b in bodies ==> PadFree(Op(icount, 0, b))
      modifies this`irqs, log
      ensures irqs == old(irqs) + vectors && Valid()
      ensures e == ErrorIf(old(FaultOf(log.recordCount, log.lastIcount, icount, bodies)))
      ensures e.None? ==> log.recordCount == old(log.recordCount) + |bodies|
      ensures e.None? ==> log.lastIcount == if bodies == [] then old(log.lastIcount) else icount
    {
      irqs := irqs + vectors;
      var ctx := new DevCtx(icount, log);
      for i := 0 to |bodies|
        invariant fresh(ctx) && ctx.log == log && ctx.icount == icount && irqs == old(irqs) + vectors
        invariant log.Valid() && (Tracks(s0, log.rs, pad.State()) == true)
        invariant ctx.fault == FaultOf(old(log.recordCount), old(log.lastIcount), icount, bodies[..i])
        invariant ctx.fault.None? ==>
                    log.recordCount == old(log.recordCount) + i && log.lastIcount == if i > 0 then icount
                                                                                     else old(log.lastIcount)
      {
        assert bodies[..i + 1][..i] == bodies[..i];
        ghost var before, n := log.rs, log.recordCount;
        ghost var refused := ErrorOf(log.recordCount, log.lastIcount, Op(icount, 0, bodies[i])).Some?;
        ctx.Log(bodies[i]);
        if !refused {
          LogIsWellFormed(log);
          TracksMore(s0, before, log.rs, n, Op(icount, 0, bodies[i]), pad.State());
        }
      }
      assert bodies[..|bodies|] == bodies;
      if ctx.fault.Some? { return Some(LogFailed(ctx.fault.value)); }
      return None;
    }

    /** `apply_pad_set`: the latch, the record, and the edge vector. */
    method ApplyPadSet(icount: u64, rip: u64, port: byte, buttons: u32,
                       frameHint: u32) returns (r: Result<Option<byte>, RecordError>)
      requires Valid()
      modifies this`irqs, pad`latch, log
      ensures var op := Op(icount, rip, PadSet(port, buttons, frameHint));
              r.Ok? <==> port < NUM_PORTS && old(ErrorOf(log.recordCount, log.lastIcount, op)).None?
      ensures r.Err? ==> Some(r.error) == StepError(old(State()), PadInput(icount, rip, port, buttons, frameHint))
      ensures r.Ok? ==> r.value == EdgeVector(old(State()), port, buttons)
      ensures r.Ok? ==> State() == StepTo(old(State()), PadInput(icount, rip, port, buttons, frameHint))
      ensures r.Ok? ==> Logged(old(log.rs), log.rs, old(log.recordCount),
                               Op(icount, rip, PadSet(port, buttons, frameHint)))
      ensures r.Err? ==> log.rs == old(log.rs)
      // The latch moves even when the record is then refused.
      ensures pad.State() == PadBy(old(pad.State()), PadInput(icount, rip, port, buttons, frameHint))
      ensures log.Valid() && (Valid() <==> r.Ok? || port >= NUM_PORTS || buttons == old(pad.latch)[port])
    {
      var ok, vector := pad.ApplyPadSet(port, buttons);
      if !ok { return Err(BadPort); }
      var op := Op(icount, rip, PadSet(port, buttons, frameHint));
      var e := log.Append(op);
      if e.Some? { return Err(LogFailed(e.value)); }
      LogIsWellFormed(log);
      TracksMore(s0, old(log.rs), log.rs, old(log.recordCount), op, old(pad.State()));
      if vector.Some? { irqs := irqs + [vector.value]; }
      return Ok(vector);
    }

    /** `apply_net_rx`: the device's answer, the record, and the edge vector. */
    method ApplyNetRx(icount: u64, rip: u64, frame: bytes, net: NetRegs, memLen: nat)
      returns (r: Result<Option<byte>, RecordError>)
      requires Valid()
      modifies this`irqs, log
      ensures Valid()
      ensures r.Err? ==> Some(r.error) == StepError(old(State()), NetInput(icount, rip, frame, net, memLen))
      ensures r.Err? ==> unchanged(this) && unchanged(log)
      ensures r.Ok? ==> StepError(old(State()), NetInput(icount, rip, frame, net, memLen)).None?
      ensures r.Ok? ==> Ok(r.value) == NetAnswer(net, memLen, frame)
      ensures r.Ok? ==> State() == StepTo(old(State()), NetInput(icount, rip, frame, net, memLen))
      ensures r.Ok? ==> Logged(old(log.rs), log.rs, old(log.recordCount), Op(icount, rip, NetRx(frame)))
    {
      var answer := NetAnswer(net, memLen, frame);
      if answer.Err? { return Err(NetFailed(answer.error)); }
      var op := Op(icount, rip, NetRx(frame));
      var e := log.Append(op);
      if e.Some? { return Err(LogFailed(e.value)); }
      LogIsWellFormed(log);
      TracksMore(s0, old(log.rs), log.rs, old(log.recordCount), op, pad.State());
      if answer.value.Some? { irqs := irqs + [answer.value.value]; }
      return Ok(answer.value);
    }

    /** Run control's own records: DEV_EVENT, EPOCH_HASH, TIMER_FIRE, checkpoints. */
    method ApplyOther(op: Op) returns (e: Option<RecordError>)
      requires Valid() && PadFree(op)
      modifies log
      ensures Valid() && e == ErrorIf(old(ErrorOf(log.recordCount, log.lastIcount, op)))
      ensures e.None? ==> Logged(old(log.rs), log.rs, old(log.recordCount), op)
      ensures e.None? ==> log.recordCount == old(log.recordCount) + 1 && log.lastIcount == op.icount
      ensures e.Some? ==> unchanged(log)
    {
      var failed := log.Append(op);
      if failed.Some? { return Some(LogFailed(failed.value)); }
      LogIsWellFormed(log);
      TracksMore(s0, old(log.rs), log.rs, old(log.recordCount), op, pad.State());
      return None;
    }

    /** One step: it fails exactly as it must, and else leads where it must. */
    method Do(step: Step) returns (e: Option<RecordError>)
      requires Valid() && Possible(step)
      modifies this, pad, log
      ensures e == StepError(old(State()), step)
      ensures pad.State() == PadBy(old(pad.State()), step)
      ensures e.None? ==> Valid() && State() == StepTo(old(State()), step)
    {
      match step
      case PadWrite(icount, off, data) => e := ServicePadWrite(icount, off, data);
      case OtherExit(icount, bodies, vectors) => e := ServiceOther(icount, bodies, vectors);
      case PadInput(icount, rip, port, buttons, hint) =>
        var r := ApplyPadSet(icount, rip, port, buttons, hint);
        e := if r.Err? then Some(r.error) else None;
      case NetInput(icount, rip, frame, net, memLen) =>
        var r := ApplyNetRx(icount, rip, frame, net, memLen);
        e := if r.Err? then Some(r.error) else None;
      case OtherInput(op) => e := ApplyOther(op);
      case DrainIrqs =>
        irqs := [];
        e := None;
    }
  }

  lemma LogIsWellFormed(log: LogWriter)
    requires log.Valid()
    ensures WellFormed(log.rs)
  {}

  // ---- completeness ------------------------------------------------------------------------------

  /** The fold over records as a reader hands them out. */
  function PadOver(s0: PadState, out: seq<Record>): PadState
    requires forall r :: r in out ==> RecordOk(r)
  {
    if out == [] then s0 else PadAfterRecord(PadOver(s0, out[..|out| - 1]), out[|out| - 1])
  }

  lemma {:induction false} PadOverRecords(s0: PadState, rs: Records)
    requires WellFormed(rs)
    ensures forall r :: r in LogReader.ToSeq(rs) ==> RecordOk(r)
    ensures PadOver(s0, LogReader.ToSeq(rs)) == PadAfter(s0, rs)
  {
    if rs.More? {
      PadOverRecords(s0, rs.before);
      var out := LogReader.ToSeq(rs);
      assert out[..|out| - 1] == LogReader.ToSeq(rs.before);
    }
  }

  lemma EndMovesNothing(s: PadState, params: SealParams, n: u32)
    ensures RecordOk(EndRecord(params, n)) && PadAfterRecord(s, EndRecord(params, n)) == s
  {
    EndReads(End(params.stopReason, params.endStateHash), n, params.endIcount, 0);
  }

  lemma EndKeepsPad(s0: PadState, rs: Records, params: SealParams, n: u32)
    requires WellFormed(rs)
    ensures RecordOk(EndRecord(params, n))
    ensures var out := LogReader.ToSeq(rs) + [EndRecord(params, n)];
            (forall r :: r in out ==> RecordOk(r)) && PadOver(s0, out) == PadAfter(s0, rs)
  {
    EndMovesNothing(PadAfter(s0, rs), params, n);
    PadOverRecords(s0, rs);
    var out := LogReader.ToSeq(rs) + [EndRecord(params, n)];
    assert out[..|out| - 1] == LogReader.ToSeq(rs);
  }

  /** Any run of a rail without an error, sealed and read back: the pad's final latch is the fold of the log's
      PAD_SET records over the initial one, and its frame counter is that of the last FRAME_MARK. */
  method RecordAndReplay(hash: Hash, rail: Rail, steps: seq<Step>, params: SealParams)
    returns (error: Option<RecordError>, parsed: Result<Header, LogReader.ReadError>, out: seq<Record>)
    requires rail.Valid() && forall s :: s in steps ==> Possible(s)
    modifies rail, rail.pad, rail.log
    ensures error == RecordingError(old(rail.State()), steps, params.endIcount)
    ensures error.None? ==> (parsed.Ok? <==> rail.log.header.clockDen != 0)
    ensures error.None? && parsed.Ok? ==>
              && (forall r :: r in out ==> RecordOk(r)) && rail.pad.State() == PadOver(rail.s0, out)
              && rail.pad.State() == PadByAll(old(rail.pad.State()), steps)
    ensures error.None? ==> rail.irqs == []
  {
    parsed, out := Err(LogReader.TooShort), [];
    error := RunSteps(rail, steps);
    if error.Some? { return; }
    if rail.irqs != [] { return Some(UndrainedIrqs(|rail.irqs|)), parsed, out; }
    ghost var rs, n := rail.log.rs, rail.log.recordCount;
    LogIsWellFormed(rail.log);
    var sealed;
    sealed, parsed, out := SealAndRead(hash, rail.log, params);
    if sealed.Err? { return Some(LogFailed(sealed.error)), parsed, out; }
    EndKeepsPad(rail.s0, rs, params, n);
    return None, parsed, out;
  }

  /** Steps, up to the first that fails. */
  method RunSteps(rail: Rail, steps: seq<Step>) returns (error: Option<RecordError>)
    requires rail.Valid() && forall s :: s in steps ==> Possible(s)
    modifies rail, rail.pad, rail.log
    ensures var r := RunTo(old(rail.State()), steps);
            if error.Some? then r == Err(error.value) else r == Ok(rail.State())
    ensures error.None? ==> rail.Valid() && rail.pad.State() == PadByAll(old(rail.pad.State()), steps)
  {
    error := None;
    for i := 0 to |steps|
      invariant rail.Valid() && rail.pad.State() == PadByAll(old(rail.pad.State()), steps[..i])
      invariant error.None? && RunTo(old(rail.State()), steps[..i]) == Ok(rail.State())
    {
      assert steps[..i + 1][..i] == steps[..i];
      error := rail.Do(steps[i]);
      if error.Some? {
        StaysFailed(old(rail.State()), steps, i + 1);
        return;
      }
    }
    assert steps[..|steps|] == steps;
  }

  lemma {:induction false} StaysFailed(s0: RailState, steps: seq<Step>, i: nat)
    requires i <= |steps| && RunTo(s0, steps[..i]).Err?
    ensures RunTo(s0, steps) == RunTo(s0, steps[..i])
    decreases |steps|
  {
    if i < |steps| {
      var before := steps[..|steps| - 1];
      assert before[..i] == steps[..i];
      StaysFailed(s0, before, i);
    } else {
      assert steps[..i] == steps;
    }
  }

  /** A record at count 5, then a button at count 4: the latch moves, and the log does not. */
  method MovesUnrecorded(header: SegmentHeader) returns (rail: Rail, e: Option<RecordError>,
                                                         r: Result<Option<byte>, RecordError>)
    ensures e.None? && r == Err(LogFailed(IcountRegressed)) && rail.pad.latch[0] == 1 && rail.log.Valid()
    ensures !rail.Valid()
  {
    var pad := new PvPad();
    var log := new LogWriter(header);
    rail := new Rail(pad, log);
    e := rail.ApplyOther(Op(5, 0, NetRx([0])));
    r := rail.ApplyPadSet(4, 0, 0, 1, 0);
  }
}
