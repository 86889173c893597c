/** One attempt on the wire (`run_attempt`, chat2/src/openai.rs:186-454) as a fold over the wake-ups of its
    `select!` loop. A wake-up says which arm won and when, in nanoseconds since the loop began. */
module AttemptSpec {
  import opened Text
  import opened Framing
  import opened Sse
  import opened Vocabulary
  import opened Machine
  import opened Refinement
  import opened Handler
  import opened Throughput

  datatype Config = Config(stall: nat, backstop: nat, overall: nat, floorBps: nat, sustained: nat)

  datatype Arm =
    | CancelArm
    | OverallArm
    | TickArm
    | StallArm
    | ReadArm(bytes: Bytes)
    | EofArm
    | ErrorArm(detail: Bytes)

  datatype Wake = Wake(at: nat, arm: Arm)

  datatype AttemptEnd = Finished(resolution: TurnResolution) | OnWire(cause: StreamEndCause)

  datatype Ctx = Ctx(cfg: Config, decode: Decoder)

  /** The loop's own variables. */
  datatype Locals = Locals(
    readSeq: nat, instSeq: nat, spanStart: nat, lastReadAt: nat, firstByteAt: Option<nat>, ttftEmitted: bool,
    gauge: Gauge, window: nat, polls: nat)

  /** An attempt in progress: its variables, the parser's buffer, the stream's state and what it has offered to the
      bus. */
  datatype Attempt = Attempt(loc: Locals, buf: Bytes, st: StreamView, log: Log, end: Option<AttemptEnd>)

  const FRESH_LOCALS := Locals(0, 0, 1, 0, None, false, Gauge(0.0, None), 0, 0)

  function Begin(st: StreamView): Attempt { Attempt(FRESH_LOCALS, [], st, [], None) }

  function Ms(d: nat): nat { d / 1_000_000 }

  function Secs(d: nat): nat { d / SECOND }

  function EndRecord(a: Attempt, cause: StreamEndCause): EmissionRecord {
    StreamEnd(a.st.stream, a.st.attempt, cause, |a.buf|)
  }

  /** A wire exit: the machine is not asked for a verdict. */
  function EndOnWire(a: Attempt, cause: StreamEndCause): Attempt {
    a.(log := a.log + [EndRecord(a, cause)], end := Some(OnWire(cause)))
  }

  /** The handler's exits: the machine gives its verdict and its anomalies are offered. */
  function Settle(a: Attempt, cause: StreamEndCause, why: EndCause): Attempt {
    a.(log := a.log + [EndRecord(a, cause)] + AnomalyRecords(a.st),
       end := Some(Finished(Verdict(a.st.fed, why))), st := a.st.(fed := []))
  }

  function InstallmentOf(a: Attempt, ev: SseEvent, status: InstallmentStatus): EmissionRecord
    requires !ev.payload.Undecodable?
  {
    var (kind, payload) := match ev.payload { case Comment(c) => (CommentKind, c) case Data(d) => (DataKind, d) };
    Installment(a.st.stream, a.st.attempt, a.loc.instSeq, a.loc.spanStart, a.loc.readSeq, ev.rawByteLen, kind, payload,
        status)
  }

  function Numbered(a: Attempt): Attempt { a.(loc := a.loc.(instSeq := a.loc.instSeq + 1)) }

  function NextSpan(a: Attempt): Attempt { a.(loc := a.loc.(spanStart := a.loc.readSeq)) }

  function Note(a: Attempt, note: WireNote): EmissionRecord { Wire(a.st.stream, a.st.attempt, note) }

  /** Notes before a `data` installment is handed over: the first one also gives the time to first token. */
  function PaceNotes(a: Attempt, at: nat, gap: nat, bytes: nat): Log {
    (if a.loc.ttftEmitted then [] else [Note(a, Ttft(Ms(at)))]) + [Note(a, InterReadGap(Ms(gap), bytes))]
  }

  function HandOver(ctx: Ctx, a: Attempt, data: Bytes): Attempt {
    var t := TakeInstallment(ctx.decode, a.st, a.loc.instSeq, DataKind, data);
    var b := a.(st := t.st, log := a.log + t.log);
    match t.directive
    case Continue => b.(loc := b.loc.(window := b.loc.window + (t.st.contentBytes - a.st.contentBytes)))
    case StopComplete => Settle(b, DoneSentinelConsumed, EndCause.StreamEnded)
    case Abort => Settle(b, HandlerAborted, HandlerAbort)
    case ProtocolFault(_) => Settle(b, HandlerProtocolError, HandlerAbort)
  }

  function OnFrame(ctx: Ctx, a0: Attempt, at: nat, gap: nat, ev: SseEvent): Attempt {
    var a := Numbered(a0);
    match ev.payload
    case Undecodable(raw) =>
      NextSpan(a.(log := a.log + [UndecodableInstallment(a.st.stream, a.st.attempt, a.loc.instSeq, raw)]))
    case Comment(_) =>
      NextSpan(a.(log := a.log + [InstallmentOf(a, ev, Complete), Note(a, KeepAliveComment)]))
    case Data(d) =>
      var b := NextSpan(a.(log := a.log + [InstallmentOf(a, ev, Complete)] + PaceNotes(a, at, gap, ev.rawByteLen)));
      HandOver(ctx, b.(loc := b.loc.(ttftEmitted := true)), d)
  }

  function OnFrames(ctx: Ctx, a: Attempt, at: nat, gap: nat, evs: seq<SseEvent>): Attempt {
    if evs == [] then a
    else
      var b := OnFrames(ctx, a, at, gap, evs[..|evs| - 1]);
      if b.end.Some? then b else OnFrame(ctx, b, at, gap, evs[|evs| - 1])
  }

  /** Bookkeeping of a read, before its bytes are framed. */
  function CountRead(a: Attempt, at: nat, bytes: nat): Attempt {
    var gap := Since(at, a.loc.lastReadAt);
    var n := a.loc.readSeq + 1;
    a.(loc := a.loc.(readSeq := n, lastReadAt := at,
                     firstByteAt := if a.loc.firstByteAt.None? then Some(at) else a.loc.firstByteAt),
       st := a.st.(readCount := a.st.readCount + 1),
       log := a.log + [Read(a.st.stream, a.st.attempt, n, Ms(at), bytes, Ms(gap))])
  }

  function OnRead(ctx: Ctx, a: Attempt, at: nat, bytes: Bytes): Attempt {
    var c := Split(a.buf + bytes);
    var b := CountRead(a, at, |bytes|).(buf := c.rest);
    if |c.rest| > DEFAULT_BUF_LIMIT then EndOnWire(b, BufferOverflowed(DEFAULT_BUF_LIMIT))
    else OnFrames(ctx, b, at, Since(at, a.loc.lastReadAt), EventsOf(c.blocks))
  }

  function OnTick(ctx: Ctx, a: Attempt, at: nat): Attempt {
    match a.loc.firstByteAt
    case None => a
    case Some(fb) =>
      var w := Window(a.loc.window, Since(at, fb) >= SECOND, at);
      var g := Evaluate(a.loc.gauge, w, ctx.cfg.floorBps);
      var b := a.(loc := a.loc.(gauge := g, window := 0),
                  log := a.log + [ContentThroughput(a.st.stream, a.st.attempt, g.average)]);
      if Overdue(g, at, ctx.cfg.sustained) then
        EndOnWire(b, ThroughputStarved(ctx.cfg.floorBps, Secs(ctx.cfg.sustained)))
      else b
  }

  /** The recovered tail: numbered and forwarded like a frame, but what the handler says of it is ignored. */
  function OnTail(ctx: Ctx, a0: Attempt, ev: SseEvent): Attempt {
    var a := Numbered(a0);
    match ev.payload
    case Undecodable(raw) => a.(log := a.log + [UndecodableInstallment(a.st.stream, a.st.attempt, a.loc.instSeq, raw)])
    case Comment(_) => a.(log := a.log + [InstallmentOf(a, ev, RecoveredTail)])
    case Data(d) =>
      var t := TakeInstallment(ctx.decode, a.st, a.loc.instSeq, DataKind, d);
      a.(st := t.st, log := a.log + [InstallmentOf(a, ev, RecoveredTail)] + t.log)
  }

  /** What is left in the buffer when the peer closes: a recovered tail or residue. */
  function Leftover(ctx: Ctx, a: Attempt): Attempt {
    var b := a.(buf := []);
    var tail := TailEvents(a.buf);
    if tail != [] then OnTail(ctx, b, tail[0])
    else if a.buf != [] then b.(log := b.log + [Residue(a.st.stream, a.st.attempt, a.buf)])
    else b
  }

  function OnEof(ctx: Ctx, a: Attempt): Attempt {
    var b := Leftover(ctx, a);
    var cause := if b.st.sawAnyContent then PeerClosed else ClosedWithNoContent;
    var c := Settle(b, cause, EndCause.StreamEnded);
    if c.end.value.resolution.Resolved? then c.(log := c.log + [Note(b, EofWithoutDoneSentinel)]) else c
  }

  function StallWindow(cfg: Config, loc: Locals): nat { if loc.readSeq == 0 then cfg.backstop else cfg.stall }

  function Woken(a: Attempt, arm: SelectArm): Attempt {
    a.(log := a.log + [SelectWake(a.st.stream, a.st.attempt, arm)])
  }

  /** One turn of the loop. */
  function Step(ctx: Ctx, a0: Attempt, w: Wake): Attempt {
    var a := a0.(loc := a0.loc.(polls := a0.loc.polls + 1));
    match w.arm
    case CancelArm => EndOnWire(Woken(a, CancelWake), Cancelled)
    case OverallArm => EndOnWire(Woken(a, OverallWake), OverallDeadline(Secs(ctx.cfg.overall)))
    case TickArm => OnTick(ctx, a, w.at)
    case StallArm =>
      var secs := Secs(StallWindow(ctx.cfg, a.loc));
      EndOnWire(Woken(a, StallWake), if a.loc.readSeq == 0 then FirstByteBackstop(secs) else StallTimeout(secs))
    case ReadArm(bytes) => OnRead(ctx, a, w.at, bytes)
    case EofArm => OnEof(ctx, a)
    case ErrorArm(detail) => EndOnWire(a, TransportError(detail))
  }

  function AfterWakes(ctx: Ctx, st: StreamView, wakes: seq<Wake>): Attempt {
    if wakes == [] then Begin(st)
    else
      var a := AfterWakes(ctx, st, wakes[..|wakes| - 1]);
      if a.end.Some? then a else Step(ctx, a, wakes[|wakes| - 1])
  }
}
