/** The driver over the handler, the bus and the parser, in the shape of the source
    (chat2/src/openai.rs:108-489). Each method is proved equal to the specification of the part it runs;
    `a` and `base` are proof-only: where the attempt stands, and what the bus had been offered before it. */
module Driver {
  import opened Text
  import opened Framing
  import opened Sse
  import opened Vocabulary
  import opened Machine
  import opened Refinement
  import opened Emission
  import opened Handler
  import opened Throughput
  import opened AttemptSpec
  import opened AttemptTrace
  import opened AttemptOutcome
  import opened TurnSpec
  import opened TurnFacts

  class OpenAiCompatDriver {
    const cfg: Config
    const handler: EventHandler

    constructor (cfg: Config, handler: EventHandler)
      ensures this.cfg == cfg && this.handler == handler
    {
      this.cfg, this.handler := cfg, handler;
    }

    ghost function Context(): Ctx { Ctx(cfg, handler.decode) }

    /** The objects and the loop's variables stand where `a` says. */
    ghost predicate Agrees(base: Log, a: Attempt, st: StreamState, l: Locals)
      reads handler, handler.bus, st, st.machine
    {
      && handler.Valid() && st.Valid()
      && a.loc == l && a.st == st.View() && handler.bus.offered == base + a.log
    }

    ghost predicate ParserAgrees(a: Attempt, parser: SseParser)
      reads parser
    {
      parser.Valid() && parser.buf == a.buf && parser.limitBytes == DEFAULT_BUF_LIMIT
    }

    /** At an await the bus's writer may run; it takes nothing from what has been offered. */
    method Await(ghost base: Log)
      requires handler.Valid() && handler.bus.offered == base
      modifies handler.bus
      ensures handler.Valid() && handler.bus.offered == base
    {
      hide EmissionBus.Valid;
      handler.bus.LetWriterRun();
    }

    method Offer(rec: EmissionRecord, ghost base: Log, ghost a: Attempt, st: StreamState, l: Locals)
      requires Agrees(base, a, st, l)
      modifies handler.bus
      ensures Agrees(base, a.(log := a.log + [rec]), st, l)
    {
      hide EmitRan, EmissionBus.Valid, StreamMachine.Valid;
      handler.bus.Emit(rec);
      assert base + (a.log + [rec]) == (base + a.log) + [rec];
    }

    /** A wire exit. */
    method EndHere(cause: StreamEndCause, unconsumed: nat, ghost base: Log, ghost a: Attempt, st: StreamState,
        l: Locals)
      returns (end: Option<AttemptEnd>)
      requires Agrees(base, a, st, l) && unconsumed == |a.buf|
      modifies handler.bus
      ensures Agrees(base, EndOnWire(a, cause), st, l) && end == EndOnWire(a, cause).end
    {
      hide EmissionBus.Valid, StreamMachine.Valid;
      Offer(StreamEnd(st.streamId, st.attempt, cause, unconsumed), base, a, st, l);
      return Some(OnWire(cause));
    }

    /** An exit through the handler's verdict. */
    method SettleHere(cause: StreamEndCause, why: EndCause, unconsumed: nat, ghost base: Log, ghost a: Attempt,
                      st: StreamState, l: Locals)
      returns (end: Option<AttemptEnd>)
      requires Agrees(base, a, st, l) && unconsumed == |a.buf|
      modifies handler.bus, st
      ensures Agrees(base, Settle(a, cause, why), st, l) && end == Settle(a, cause, why).end
      ensures st.machine == old(st.machine) || fresh(st.machine)
    {
      hide EmissionBus.Valid, StreamMachine.Valid, Verdict, AnomaliesOf;
      Offer(StreamEnd(st.streamId, st.attempt, cause, unconsumed), base, a, st, l);
      var res := handler.FinalizeAttempt(st, why);
      assert base + (a.log + [EndRecord(a, cause)] + AnomalyRecords(a.st))
          == (base + (a.log + [EndRecord(a, cause)])) + AnomalyRecords(a.st);
      return Some(Finished(res));
    }

    /** One complete frame. */
    method ForwardFrame(ev: SseEvent, at: nat, gap: nat, st: StreamState, l0: Locals, unconsumed: nat,
                        ghost base: Log, ghost a: Attempt)
      returns (l: Locals, end: Option<AttemptEnd>)
      requires Agrees(base, a, st, l0) && a.end.None? && unconsumed == |a.buf|
      modifies handler.bus, st, st.machine
      ensures var b := OnFrame(Context(), a, at, gap, ev); Agrees(base, b, st, l) && end == b.end
      ensures st.machine == old(st.machine) || fresh(st.machine)
      ensures end.None? ==> st.machine == old(st.machine)
    {
      hide EmissionBus.Valid, StreamMachine.Valid, HandOver;
      l := l0.(instSeq := l0.instSeq + 1);
      ghost var b := Numbered(a);
      var stream, attempt := st.streamId, st.attempt;
      match ev.payload {
        case Undecodable(raw) =>
          Offer(UndecodableInstallment(stream, attempt, l.instSeq, raw), base, b, st, l);
          l := l.(spanStart := l.readSeq);
          return l, None;
        case Comment(c) =>
          var rec := Installment(stream, attempt, l.instSeq, l.spanStart, l.readSeq, ev.rawByteLen, CommentKind, c,
              Complete);
          Offer(rec, base, b, st, l);
          Offer(Wire(stream, attempt, KeepAliveComment), base, b.(log := b.log + [rec]), st, l);
          assert b.log + [rec, Wire(stream, attempt, KeepAliveComment)]
              == (b.log + [rec]) + [Wire(stream, attempt, KeepAliveComment)];
          l := l.(spanStart := l.readSeq);
          return l, None;
        case Data(d) =>
          l := OfferData(d, ev.rawByteLen, at, gap, st, l, base, b);
          b := NextSpan(b.(log := b.log + [InstallmentOf(b, ev, Complete)] + PaceNotes(b, at, gap, ev.rawByteLen)));
          b := b.(loc := b.loc.(ttftEmitted := true));
          l, end := GiveToHandler(d, st, l, unconsumed, base, b);
      }
    }

    method OfferData(d: Bytes, bytes: nat, at: nat, gap: nat, st: StreamState, l0: Locals, ghost base: Log,
        ghost a: Attempt)
      returns (l: Locals)
      requires Agrees(base, a, st, l0)
      modifies handler.bus
      ensures var rec := InstallmentOf(a, SseEvent(Data(d), bytes), Complete);
              var b := NextSpan(a.(log := a.log + [rec] + PaceNotes(a, at, gap, bytes)));
              Agrees(base, b.(loc := b.loc.(ttftEmitted := true)), st, l)
    {
      hide EmissionBus.Valid, StreamMachine.Valid;
      var stream, attempt := st.streamId, st.attempt;
      var rec := Installment(stream, attempt, l0.instSeq, l0.spanStart, l0.readSeq, bytes, DataKind, d, Complete);
      Offer(rec, base, a, st, l0);
      ghost var b := a.(log := a.log + [rec]);
      if !l0.ttftEmitted {
        Offer(Wire(stream, attempt, Ttft(Ms(at))), base, b, st, l0);
        b := b.(log := b.log + [Wire(stream, attempt, Ttft(Ms(at)))]);
      }
      Offer(Wire(stream, attempt, InterReadGap(Ms(gap), bytes)), base, b, st, l0);
      b := b.(log := b.log + [Wire(stream, attempt, InterReadGap(Ms(gap), bytes))]);
      assert b.log == a.log + [rec] + PaceNotes(a, at, gap, bytes);
      l := l0.(spanStart := l0.readSeq, ttftEmitted := true);
    }

    method GiveToHandler(d: Bytes, st: StreamState, l0: Locals, unconsumed: nat, ghost base: Log, ghost a: Attempt)
      returns (l: Locals, end: Option<AttemptEnd>)
      requires Agrees(base, a, st, l0) && a.end.None? && unconsumed == |a.buf|
      modifies handler.bus, st, st.machine
      ensures var b := HandOver(Context(), a, d); Agrees(base, b, st, l) && end == b.end
      ensures st.machine == old(st.machine) || fresh(st.machine)
      ensures end.None? ==> st.machine == old(st.machine)
    {
      hide EmissionBus.Valid, StreamMachine.Valid, TakeInstallment, Settle;
      l := l0;
      var before := st.contentBytes;
      ContentGrows(handler.decode, a.st, l.instSeq, d);
      var directive := handler.OnInstallment(st, l.instSeq, DataKind, d);
      ghost var t := TakeInstallment(handler.decode, a.st, l.instSeq, DataKind, d);
      ghost var b := a.(st := t.st, log := a.log + t.log);
      assert base + (a.log + t.log) == (base + a.log) + t.log;
      match directive {
        case Continue =>
          l := l.(window := l.window + (st.contentBytes - before));
          end := None;
        case StopComplete =>
          FinishEnds(b, DoneSentinelConsumed, EndCause.StreamEnded);
          end := SettleHere(DoneSentinelConsumed, EndCause.StreamEnded, unconsumed, base, b, st, l);
        case Abort =>
          FinishEnds(b, HandlerAborted, HandlerAbort);
          end := SettleHere(HandlerAborted, HandlerAbort, unconsumed, base, b, st, l);
        case ProtocolFault(_) =>
          FinishEnds(b, HandlerProtocolError, HandlerAbort);
          end := SettleHere(HandlerProtocolError, HandlerAbort, unconsumed, base, b, st, l);
      }
    }

    method ForwardFrames(frames: seq<SseEvent>, at: nat, gap: nat, st: StreamState, l0: Locals, unconsumed: nat,
                         ghost base: Log, ghost a: Attempt)
      returns (l: Locals, end: Option<AttemptEnd>)
      requires Agrees(base, a, st, l0) && a.end.None? && unconsumed == |a.buf|
      modifies handler.bus, st, st.machine
      ensures var b := OnFrames(Context(), a, at, gap, frames); Agrees(base, b, st, l) && end == b.end
      ensures st.machine == old(st.machine) || fresh(st.machine)
      ensures end.None? ==> st.machine == old(st.machine)
    {
      hide EmissionBus.Valid, StreamMachine.Valid, OnFrame, StreamState.View;
      l, end := l0, None;
      ghost var b := a;
      for i := 0 to |frames|
        invariant b == OnFrames(Context(), a, at, gap, frames[..i]) && b.end.None? && b.buf == a.buf && end.None?
        invariant Agrees(base, b, st, l) && st.machine == old(st.machine)
      {
        assert frames[..i + 1][..i] == frames[..i];
        FrameKeepsBuffer(Context(), b, at, gap, frames[i]);
        l, end := ForwardFrame(frames[i], at, gap, st, l, unconsumed, base, b);
        b := OnFrame(Context(), b, at, gap, frames[i]);
        if end.Some? {
          EndedFrames(Context(), a, at, gap, frames, i + 1);
          return;
        }
      }
      assert frames[..|frames|] == frames;
    }

    method OnReadArm(item: Bytes, at: nat, st: StreamState, parser: SseParser, l0: Locals, ghost base: Log,
        ghost a: Attempt)
      returns (l: Locals, end: Option<AttemptEnd>)
      requires Agrees(base, a, st, l0) && ParserAgrees(a, parser) && a.end.None?
      modifies handler.bus, st, st.machine, parser
      ensures var b := OnRead(Context(), a, at, item);
              Agrees(base, b, st, l) && end == b.end && (end.None? ==> ParserAgrees(b, parser))
      ensures st.machine == old(st.machine) || fresh(st.machine)
      ensures end.None? ==> st.machine == old(st.machine)
    {
      hide EmissionBus.Valid, StreamMachine.Valid, SseParser.Valid, OnFrames, Split, EventsOf;
      var gap := Since(at, l0.lastReadAt);
      l := l0.(readSeq := l0.readSeq + 1, lastReadAt := at,
               firstByteAt := if l0.firstByteAt.None? then Some(at) else l0.firstByteAt);
      st.readCount := st.readCount + 1;
      ghost var b := a.(loc := l, st := st.View());
      Offer(Read(st.streamId, st.attempt, l.readSeq, Ms(at), |item|, Ms(gap)), base, b, st, l);
      var pushed := parser.Push(item);
      b := CountRead(a, at, |item|).(buf := parser.buf);
      match pushed {
        case Overflow(limit) =>
          end := EndHere(BufferOverflowed(limit), |parser.buf|, base, b, st, l);
        case Frames(frames) =>
          FramesKeepBuffer(Context(), b, at, gap, frames);
          l, end := ForwardFrames(frames, at, gap, st, l, |parser.buf|, base, b);
      }
    }

    method OnTickArm(at: nat, st: StreamState, parser: SseParser, l0: Locals, ghost base: Log, ghost a: Attempt)
      returns (l: Locals, end: Option<AttemptEnd>)
      requires Agrees(base, a, st, l0) && ParserAgrees(a, parser) && a.end.None?
      modifies handler.bus
      ensures var b := OnTick(Context(), a, at); Agrees(base, b, st, l) && end == b.end
    {
      hide EmissionBus.Valid, StreamMachine.Valid, SseParser.Valid, Evaluate, Overdue;
      l, end := l0, None;
      match l.firstByteAt {
        case None =>
        case Some(fb) =>
          var warmed := Since(at, fb) >= SECOND;
          var average, starved, since := EvalThroughput(l.gauge.average, l.window, cfg.floorBps, warmed,
              l.gauge.starvedSince, at, cfg.sustained);
          l := l.(gauge := Gauge(average, since), window := 0);
          var rec := ContentThroughput(st.streamId, st.attempt, average);
          ghost var b := a.(loc := l);
          Offer(rec, base, b, st, l);
          b := b.(log := b.log + [rec]);
          if starved {
            end := EndHere(ThroughputStarved(cfg.floorBps, Secs(cfg.sustained)), |parser.buf|, base, b, st, l);
          }
      }
    }

    method OnEofArm(st: StreamState, parser: SseParser, l0: Locals, ghost base: Log, ghost a: Attempt)
      returns (l: Locals, end: Option<AttemptEnd>)
      requires Agrees(base, a, st, l0) && ParserAgrees(a, parser) && a.end.None?
      modifies handler.bus, st, st.machine, parser
      ensures var b := OnEof(Context(), a); Agrees(base, b, st, l) && end == b.end
      ensures st.machine == old(st.machine) || fresh(st.machine)
    {
      hide EmissionBus.Valid, StreamMachine.Valid, SseParser.Valid, OnTail, TailEvents, Settle, BlockEvent, Leftover;
      LeftoverCases(Context(), a);
      var tail, residue := parser.FinishWithResidue();
      l := l0;
      ghost var b := a.(buf := []);
      if |tail| > 0 {
        l := ForwardTail(tail[0], st, l, base, b);
      } else if |residue| > 0 {
        Offer(Residue(st.streamId, st.attempt, residue), base, b, st, l);
      }
      b := Leftover(Context(), a);
      end := CloseAttempt(st, l, base, a, b);
    }

    method CloseAttempt(st: StreamState, l: Locals, ghost base: Log, ghost a: Attempt, ghost b: Attempt)
        returns (end: Option<AttemptEnd>)
      requires Agrees(base, b, st, l) && b == Leftover(Context(), a) && b.buf == []
      modifies handler.bus, st
      ensures var c := OnEof(Context(), a); Agrees(base, c, st, l) && end == c.end
      ensures st.machine == old(st.machine) || fresh(st.machine)
    {
      hide EmissionBus.Valid, StreamMachine.Valid, Leftover, Verdict, AnomaliesOf;
      var cause := if st.sawAnyContent then PeerClosed else ClosedWithNoContent;
      end := SettleHere(cause, EndCause.StreamEnded, 0, base, b, st, l);
      if end.value.resolution.Resolved? {
        Offer(Wire(st.streamId, st.attempt, EofWithoutDoneSentinel), base, Settle(b, cause, EndCause.StreamEnded), st,
            l);
      }
    }

    method ForwardTail(ev: SseEvent, st: StreamState, l0: Locals, ghost base: Log, ghost a: Attempt) returns (l: Locals)
      requires Agrees(base, a, st, l0) && a.end.None?
      modifies handler.bus, st, st.machine
      ensures Agrees(base, OnTail(Context(), a, ev), st, l)
      ensures st.machine == old(st.machine)
    {
      hide EmissionBus.Valid, StreamMachine.Valid, Judge, TextBytes, HasText;
      l := l0.(instSeq := l0.instSeq + 1);
      ghost var b := Numbered(a);
      var stream, attempt := st.streamId, st.attempt;
      match ev.payload {
        case Undecodable(raw) =>
          Offer(UndecodableInstallment(stream, attempt, l.instSeq, raw), base, b, st, l);
        case Comment(c) =>
          Offer(Installment(stream, attempt, l.instSeq, l.spanStart, l.readSeq, ev.rawByteLen, CommentKind, c,
              RecoveredTail), base, b, st, l);
          var ignored := handler.OnInstallment(st, l.instSeq, CommentKind, c);
          assert handler.bus.offered + [] == handler.bus.offered;
        case Data(d) =>
          var rec := Installment(stream, attempt, l.instSeq, l.spanStart, l.readSeq, ev.rawByteLen, DataKind, d,
              RecoveredTail);
          Offer(rec, base, b, st, l);
          ghost var t := TakeInstallment(handler.decode, b.st, l.instSeq, DataKind, d);
          var ignored := handler.OnInstallment(st, l.instSeq, DataKind, d);
          assert base + (b.log + [rec] + t.log) == (base + (b.log + [rec])) + t.log;
      }
    }

    /** One wake-up of the `select!`. */
    method OnWake(w: Wake, st: StreamState, parser: SseParser, l0: Locals, ghost base: Log, ghost a0: Attempt)
      returns (l: Locals, end: Option<AttemptEnd>)
      requires Agrees(base, a0, st, l0) && ParserAgrees(a0, parser) && a0.end.None?
      modifies handler.bus, st, st.machine, parser
      ensures var b := Step(Context(), a0, w);
              Agrees(base, b, st, l) && end == b.end && (end.None? ==> ParserAgrees(b, parser))
      ensures st.machine == old(st.machine) || fresh(st.machine)
      ensures end.None? ==> st.machine == old(st.machine)
    {
      hide EmissionBus.Valid, StreamMachine.Valid, SseParser.Valid, OnRead, OnTick, OnEof, EndOnWire;
      l := l0.(polls := l0.polls + 1);
      ghost var a := a0.(loc := l);
      var stream, attempt := st.streamId, st.attempt;
      match w.arm {
        case CancelArm =>
          Offer(SelectWake(stream, attempt, CancelWake), base, a, st, l);
          end := EndHere(Cancelled, |parser.buf|, base, Woken(a, CancelWake), st, l);
          EndedOnWire(Woken(a, CancelWake), Cancelled);
        case OverallArm =>
          Offer(SelectWake(stream, attempt, OverallWake), base, a, st, l);
          end := EndHere(OverallDeadline(Secs(cfg.overall)), |parser.buf|, base, Woken(a, OverallWake), st, l);
          EndedOnWire(Woken(a, OverallWake), OverallDeadline(Secs(cfg.overall)));
        case TickArm =>
          TickKeepsBuffer(Context(), a, w.at);
          l, end := OnTickArm(w.at, st, parser, l, base, a);
        case StallArm =>
          Offer(SelectWake(stream, attempt, StallWake), base, a, st, l);
          var secs := Secs(if l.readSeq == 0 then cfg.backstop else cfg.stall);
          var cause := if l.readSeq == 0 then FirstByteBackstop(secs) else StallTimeout(secs);
          end := EndHere(cause, |parser.buf|, base, Woken(a, StallWake), st, l);
          EndedOnWire(Woken(a, StallWake), cause);
        case ReadArm(bytes) =>
          l, end := OnReadArm(bytes, w.at, st, parser, l, base, a);
        case EofArm =>
          EofEnds(Context(), a);
          l, end := OnEofArm(st, parser, l, base, a);
        case ErrorArm(detail) =>
          end := EndHere(TransportError(detail), |parser.buf|, base, a, st, l);
          EndedOnWire(a, TransportError(detail));
      }
    }

    /** The read loop, driven by the wake-ups it meets; it returns as soon as the attempt ends. */
    method ReadLoop(wakes: seq<Wake>, st: StreamState, ghost base: Log) returns (l: Locals, end: Option<AttemptEnd>)
      requires handler.Valid() && st.Valid() && handler.bus.offered == base
      modifies handler.bus, st, st.machine
      ensures var a := AfterWakes(Context(), old(st.View()), wakes); Agrees(base, a, st, l) && end == a.end
      ensures st.machine == old(st.machine) || fresh(st.machine)
    {
      hide EmissionBus.Valid, StreamMachine.Valid, SseParser.Valid, Step, StreamState.View;
      var parser := new SseParser.WithLimit(DEFAULT_BUF_LIMIT);
      l, end := FRESH_LOCALS, None;
      ghost var st0 := st.View();
      ghost var a := Begin(st0);
      assert base + [] == base;
      for i := 0 to |wakes|
        invariant a == AfterWakes(Context(), st0, wakes[..i]) && a.end.None? && end.None?
        invariant Agrees(base, a, st, l) && ParserAgrees(a, parser) && st.machine == old(st.machine) && fresh(parser)
      {
        assert wakes[..i + 1][..i] == wakes[..i];
        Await(base + a.log);
        l, end := OnWake(wakes[i], st, parser, l, base, a);
        a := Step(Context(), a, wakes[i]);
        if end.Some? {
          EndedWakes(Context(), st0, wakes, i + 1);
          return;
        }
      }
      assert wakes[..|wakes|] == wakes;
    }

    // ---- the turn ----

    ghost function Plan(): Strategy { Strategy(handler.retryAllowancePerTurn, handler.knowsFailoverExists) }

    /** The objects and the loop's variables stand where `t` says. */
    ghost predicate TurnAgrees(base: Log, t: Turn, st: StreamState, verdict: Option<TurnVerdict>, remaining: nat,
        polls: nat)
      reads handler, handler.bus, st, st.machine
    {
      && handler.Valid() && st.Valid() && st.View() == t.st && handler.bus.offered == base + t.log
      && verdict == t.verdict && remaining == t.remaining && polls == t.polls
    }

    /** The request, and the read loop if a stream comes back. */
    method RunAttempt(w: World, st: StreamState, polls0: nat, ghost base: Log)
        returns (end: Option<AttemptEnd>, polls: nat)
      requires handler.Valid() && st.Valid() && handler.bus.offered == base
      modifies handler.bus, st, st.machine
      ensures handler.Valid() && st.Valid() && (st.machine == old(st.machine) || fresh(st.machine))
      ensures var a := AttemptRun(Context(), old(st.View()), w);
              && st.View() == a.st && handler.bus.offered == base + a.log && end == a.end
                 && polls == polls0 + a.loc.polls
    {
      hide EmissionBus.Valid, StreamMachine.Valid, AfterWakes, FirstChars;
      Await(base);
      if w.dial == Streaming {
        var l;
        l, end := ReadLoop(w.wakes, st, base);
        return end, polls0 + l.polls;
      }
      var cause := match w.dial
        case DialCancelled => Cancelled
        case DialTimedOut => FirstByteBackstop(Secs(cfg.backstop))
        case DialFailed(detail) => ConnectError(detail)
        case BadStatus(status, body) => HttpError(status, body)
        case WrongType(contentType, body) => NotAnEventStream(contentType, FirstChars(body, BODY_PREFIX_CHARS));
      ghost var a := Begin(st.View());
      assert base + [] == base;
      end := EndHere(cause, 0, base, a, st, FRESH_LOCALS);
      return end, polls0;
    }

    /** What a wire fault or a fault of the machine leads to. */
    method OnTrouble(f: DriverFault, st: StreamState, remaining0: nat, polls: nat, ghost base: Log, ghost t: Turn)
      returns (verdict: Option<TurnVerdict>, remaining: nat)
      requires TurnAgrees(base, t, st, None, remaining0, polls)
      modifies handler.bus
      ensures TurnAgrees(base, OnFault(Plan(), t, f), st, verdict, remaining, polls)
    {
      hide EmissionBus.Valid, StreamMachine.Valid;
      var directive;
      directive, remaining := handler.OnWireFault(st.streamId, st.attempt, remaining0);
      match directive {
        case RetrySameEndpoint => verdict := None;
        case GoToFailover => verdict := Some(Failover(st.attempt));
        case GiveUp => verdict := Some(Failed(f));
      }
      FaultLog(Plan(), t, f);
      assert base + (t.log + FaultNotes(t)) == (base + t.log) + FaultNotes(t);
    }

    /** The choice once the bucket is back. */
    method Conclude(end: AttemptEnd, st: StreamState, remaining0: nat, polls: nat, ghost base: Log, ghost t: Turn)
      returns (verdict: Option<TurnVerdict>, remaining: nat)
      requires TurnAgrees(base, t, st, None, remaining0, polls)
      modifies handler.bus
      ensures TurnAgrees(base, Decide(Plan(), t, Some(end)), st, verdict, remaining, polls)
    {
      hide EventHandler.Valid, StreamState.View, StreamMachine.Valid, OnFault, WireFault;
      verdict, remaining := None, remaining0;
      match end {
        case Finished(Resolved(o)) => verdict := Some(Committed(o));
        case Finished(Faulted(f)) => verdict, remaining := OnTrouble(f, st, remaining, polls, base, t);
        case OnWire(cause) =>
          if cause == Cancelled {
            verdict := Some(Failed(Protocol(CancelledByCaller)));
          } else {
            verdict, remaining := OnTrouble(WireFault(cause), st, remaining, polls, base, t);
          }
      }
    }

    /** One trip round the turn's loop. The shared counter is first as other turns have left it. */
    method MakeAttempt(w: World, st: StreamState, remaining0: nat, polls0: nat, ghost base: Log, ghost t: Turn)
      returns (verdict: Option<TurnVerdict>, remaining: nat, polls: nat)
      requires TurnAgrees(base, t, st, None, remaining0, polls0) && Concludes(w)
      modifies handler, handler.bus, st, st.machine
      ensures TurnAgrees(base, OneAttempt(Context(), Plan(), t, w), st, verdict, remaining, polls)
      ensures handler.sendBuckets == CounterAfter(w)
      ensures st.machine == old(st.machine) || fresh(st.machine)
    {
      hide EmissionBus.Valid, StreamMachine.Valid, AttemptRun, AttemptTime, Decide;
      verdict, remaining, polls := None, remaining0, polls0;
      var attempt := st.BeginAttempt();
      ghost var t1 := t.(st := NextAttempt(t.st));
      handler.sendBuckets := w.available;
      var admitted := handler.AcquireSendBucket(st.streamId, attempt);
      if !admitted {
        assert base + (t.log + [LedgerRecord(t1, SendBucketDenied)])
            == (base + t.log) + [LedgerRecord(t1, SendBucketDenied)];
        return Some(Failed(Protocol(AdmissionDenied))), remaining, polls;
      }
      ConcludesEnds(Context(), t1.st, w);
      AttemptKeepsIdentity(Context(), t1.st, w);
      var end;
      end, polls := RunAttempt(w, st, polls, handler.bus.offered);
      handler.sendBuckets := w.onReturn;
      handler.ReturnSendBucket(st.streamId, attempt);
      ghost var t2 := Admitted(Context(), t1, w);
      AdmittedLog(Context(), base, t1, w);
      assert TurnAgrees(base, t2, st, None, remaining, polls);
      verdict, remaining := Conclude(end.value, st, remaining, polls, base, t2);
    }

    method OfferTrailer(verdict: TurnVerdict, polls: nat, st: StreamState, ghost base: Log, ghost t: Turn)
      requires TurnAgrees(base, t, st, Some(verdict), t.remaining, polls)
      modifies handler.bus
      ensures handler.Valid() && handler.bus.offered == base + t.log + [Trailer(t, verdict)]
    {
      hide EmitRan, EmissionBus.Valid, StreamMachine.Valid;
      handler.bus.Emit(TurnTrailer(st.streamId, st.attempt, verdict, st.readCount, st.installments, st.events,
          st.normErrors, polls));
    }

    /** One user turn on this endpoint, in the surroundings `worlds`. */
    method ExecuteTurn(stream: StreamId, worlds: seq<World>) returns (verdict: TurnVerdict)
      requires handler.Valid() && EnoughWorlds(Plan(), worlds)
      modifies handler, handler.bus
      ensures handler.Valid()
      ensures var t := AfterWorlds(Context(), Plan(), stream, worlds);
              && t.verdict == Some(verdict) && handler.bus.offered
                 == old(handler.bus.offered) + t.log + [Trailer(t, verdict)]
              && 1 <= t.st.attempt <= |worlds| && handler.sendBuckets == CounterAfter(worlds[t.st.attempt - 1])
    {
      hide EmissionBus.Valid, StreamMachine.Valid, OneAttempt, StreamState.View, Concludes;
      ghost var base := handler.bus.offered;
      var st := handler.BeginStream(stream);
      var remaining, polls, outcome: Option<TurnVerdict>, i := handler.retryAllowancePerTurn, 0, None, 0;
      ghost var t := BeginTurn(Plan(), stream);
      while outcome.None?
        invariant i <= |worlds| && t == AfterWorlds(Context(), Plan(), stream, worlds[..i])
        invariant TurnAgrees(base, t, st, outcome, remaining, polls) && fresh(st) && fresh(st.machine)
        invariant t.st.attempt == i && (i > 0 ==> handler.sendBuckets == CounterAfter(worlds[i - 1]))
        decreases |worlds| - i
      {
        NextWorld(Context(), Plan(), stream, worlds, i);
        outcome, remaining, polls := MakeAttempt(worlds[i], st, remaining, polls, base, t);
        t := OneAttempt(Context(), Plan(), t, worlds[i]);
        i := i + 1;
      }
      VerdictStands(Context(), Plan(), stream, worlds, i);
      verdict := outcome.value;
      OfferTrailer(verdict, polls, st, base, t);
    }
  }

  /** What the strategy offers to the bus on a fault. */
  ghost function FaultNotes(t: Turn): Log {
    if t.remaining > 0 then [Ledger(t.st.stream, t.st.attempt, RetryAllowanceSpent(t.remaining - 1))] else []
  }

  lemma {:induction false} FaultLog(s: Strategy, t: Turn, f: DriverFault)
    ensures OnFault(s, t, f).log == t.log + FaultNotes(t)
  {
    assert t.log + [] == t.log;
  }

  lemma AdmittedLog(ctx: Ctx, base: Log, t: Turn, w: World)
    ensures var a := AttemptRun(ctx, t.st, w);
            base + Admitted(ctx, t, w).log
            == base + t.log + [LedgerRecord(t, SendBucketSpent(if w.available > 0 then w.available - 1 else 0))] + a.log
                 + [LedgerRecord(t.(st := a.st), SendBucketReturned((w.onReturn + 1) % U32))]
  {
    hide AttemptRun, AttemptTime;
  }

  lemma ContentGrows(decode: Decoder, st: StreamView, n: nat, data: Bytes)
    ensures TakeInstallment(decode, st, n, DataKind, data).st.contentBytes >= st.contentBytes
  {
  }

  // ---- what an ended or unended attempt keeps ----

  lemma FrameKeepsBuffer(ctx: Ctx, a: Attempt, at: nat, gap: nat, ev: SseEvent)
    ensures OnFrame(ctx, a, at, gap, ev).buf == a.buf
  {
    hide TakeInstallment, PaceNotes, Verdict, AnomaliesOf;
  }

  lemma {:induction false} EndedFrames(ctx: Ctx, a: Attempt, at: nat, gap: nat, evs: seq<SseEvent>, n: nat)
    requires n <= |evs| && OnFrames(ctx, a, at, gap, evs[..n]).end.Some?
    ensures OnFrames(ctx, a, at, gap, evs) == OnFrames(ctx, a, at, gap, evs[..n])
    decreases |evs|
  {
    hide OnFrame;
    if n == |evs| {
      assert evs[..n] == evs;
    } else {
      assert evs[..|evs| - 1][..n] == evs[..n];
      EndedFrames(ctx, a, at, gap, evs[..|evs| - 1], n);
    }
  }

  /** An ended attempt meets no more wake-ups. */
  lemma {:induction false} EndedWakes(ctx: Ctx, st: StreamView, wakes: seq<Wake>, n: nat)
    requires n <= |wakes| && AfterWakes(ctx, st, wakes[..n]).end.Some?
    ensures AfterWakes(ctx, st, wakes) == AfterWakes(ctx, st, wakes[..n])
    decreases |wakes|
  {
    hide Step;
    if n == |wakes| {
      assert wakes[..n] == wakes;
    } else {
      assert wakes[..|wakes| - 1][..n] == wakes[..n];
      EndedWakes(ctx, st, wakes[..|wakes| - 1], n);
    }
  }

  lemma EndedOnWire(a: Attempt, cause: StreamEndCause)
    ensures EndOnWire(a, cause).end == Some(OnWire(cause))
  {
  }

  lemma TickKeepsBuffer(ctx: Ctx, a: Attempt, at: nat)
    ensures OnTick(ctx, a, at).buf == a.buf
  {
    hide Evaluate;
  }

  lemma LeftoverCases(ctx: Ctx, a: Attempt)
    requires a.end.None?
    ensures |TailEvents(a.buf)| <= 1 && Leftover(ctx, a).end.None? && Leftover(ctx, a).buf == []
    ensures TailEvents(a.buf) == [] <==> a.buf == [] || BlockEvent(a.buf).None?
    ensures var b := a.(buf := []);
            Leftover(ctx, a) ==
              if TailEvents(a.buf) != [] then OnTail(ctx, b, TailEvents(a.buf)[0])
              else if a.buf != [] then b.(log := b.log + [Residue(a.st.stream, a.st.attempt, a.buf)])
              else b
  {
    hide BlockEvent, TakeInstallment;
  }
}
