/** One user turn on one endpoint (`execute_turn`, chat2/src/openai.rs:129-184): attempts until a verdict. A `World` is
    what the surroundings do during one attempt: the shared counter it finds, how the request goes, and the wake-ups. */
module TurnSpec {
  import opened Text
  import opened Vocabulary
  import opened Handler
  import opened AttemptSpec

  datatype Dial =
    | Streaming
    | DialCancelled
    | DialTimedOut
    | DialFailed(detail: Bytes)
    | BadStatus(status: nat, body: Bytes)
    | WrongType(contentType: Bytes, body: Bytes)

  /** `available` and `onReturn` are the bucket counter as other turns have left it at the acquire and at the return;
      `headerWait` and `bodyWait` are how long the response head, and an error body, took. */
  datatype World = World(available: nat, onReturn: nat, dial: Dial, headerWait: nat, bodyWait: nat, wakes: seq<Wake>)

  datatype Turn = Turn(st: StreamView, remaining: nat, polls: nat, log: Log, elapsed: nat, verdict: Option<TurnVerdict>)

  /** `s.chars().take(n)`. */
  function FirstChars(s: Bytes, n: nat): Bytes
    decreases n
  {
    if n == 0 || s == [] then []
    else
      var k := if CharLen(s) == 0 then 1 else CharLen(s);
      s[..k] + FirstChars(s[k..], n - 1)
  }

  const BODY_PREFIX_CHARS: nat := 400

  function DialCause(cfg: Config, dial: Dial): StreamEndCause
    requires dial != Streaming
  {
    match dial
    case DialCancelled => Cancelled
    case DialTimedOut => FirstByteBackstop(Secs(cfg.backstop))
    case DialFailed(detail) => ConnectError(detail)
    case BadStatus(status, body) => HttpError(status, body)
    case WrongType(contentType, body) => NotAnEventStream(contentType, FirstChars(body, BODY_PREFIX_CHARS))
  }

  function AttemptRun(ctx: Ctx, st: StreamView, w: World): Attempt {
    if w.dial == Streaming then AfterWakes(ctx, st, w.wakes)
    else EndOnWire(Begin(st), DialCause(ctx.cfg, w.dial))
  }

  function WireFault(c: StreamEndCause): DriverFault {
    match c
    case StallTimeout(secs) => Stalled(secs)
    case FirstByteBackstop(secs) => Stalled(secs)
    case ThroughputStarved(_, secs) => Stalled(secs)
    case OverallDeadline(secs) => Stalled(secs)
    case BufferOverflowed(limit) => BufferOverflow(limit)
    case HttpError(status, body) => Protocol(HttpAnswer(status, body))
    case NotAnEventStream(contentType, prefix) => Protocol(NotAStream(contentType, prefix))
    case ConnectError(detail) => Protocol(Verbatim(detail))
    case TransportError(detail) => Protocol(Verbatim(detail))
    case _ => Protocol(Unexpected(c))
  }

  function OnFault(s: Strategy, t: Turn, f: DriverFault): Turn {
    match FaultStrategy(t.remaining, s.knowsFailover)
    case RetrySameEndpoint =>
      var left := if t.remaining > 0 then t.remaining - 1 else 0;
      t.(remaining := left, log := t.log + [Ledger(t.st.stream, t.st.attempt, RetryAllowanceSpent(left))])
    case GoToFailover => t.(verdict := Some(Failover(t.st.attempt)))
    case GiveUp => t.(verdict := Some(Failed(f)))
  }

  function Decide(s: Strategy, t: Turn, end: Option<AttemptEnd>): Turn {
    match end
    case None => t
    case Some(Finished(Resolved(o))) => t.(verdict := Some(Committed(o)))
    case Some(Finished(Faulted(f))) => OnFault(s, t, f)
    case Some(OnWire(c)) =>
      if c.Cancelled? then t.(verdict := Some(Failed(Protocol(CancelledByCaller)))) else OnFault(s, t, WireFault(c))
  }

  /** When the last wake-up the loop met happened. */
  function EndTime(ctx: Ctx, st: StreamView, wakes: seq<Wake>): nat {
    if wakes == [] then 0
    else
      var init := wakes[..|wakes| - 1];
      if AfterWakes(ctx, st, init).end.Some? then EndTime(ctx, st, init) else wakes[|wakes| - 1].at
  }

  function AttemptTime(ctx: Ctx, st: StreamView, w: World): nat {
    w.headerWait +
    match w.dial
    case Streaming => EndTime(ctx, st, w.wakes)
    case BadStatus(_, _) => w.bodyWait
    case WrongType(_, _) => w.bodyWait
    case _ => 0
  }

  function LedgerRecord(t: Turn, entry: LedgerEntry): EmissionRecord { Ledger(t.st.stream, t.st.attempt, entry) }

  /** The attempt itself, between its bucket records. */
  function Admitted(ctx: Ctx, t: Turn, w: World): Turn {
    var a := AttemptRun(ctx, t.st, w);
    t.(st := a.st, polls := t.polls + a.loc.polls, elapsed := t.elapsed + AttemptTime(ctx, t.st, w),
       log := t.log + [LedgerRecord(t, SendBucketSpent(if w.available > 0 then w.available - 1 else 0))] + a.log
              + [LedgerRecord(t.(st := a.st), SendBucketReturned((w.onReturn + 1) % U32))])
  }

  function OneAttempt(ctx: Ctx, s: Strategy, t0: Turn, w: World): Turn {
    var t := t0.(st := NextAttempt(t0.st));
    if w.available == 0 then
      t.(log := t.log + [LedgerRecord(t, SendBucketDenied)], verdict := Some(Failed(Protocol(AdmissionDenied))))
    else
      Decide(s, Admitted(ctx, t, w), AttemptRun(ctx, t.st, w).end)
  }

  /** The shared counter as the attempt leaves it: refused at zero, or a bucket returned (32 bits, wrapping). */
  function CounterAfter(w: World): nat { if w.available == 0 then 0 else (w.onReturn + 1) % U32 }

  function BeginTurn(s: Strategy, stream: StreamId): Turn {
    Turn(NewStream(stream), s.allowance, 0, [Ledger(stream, 0, RetryAllowanceGranted(s.allowance))], 0, None)
  }

  function AfterWorlds(ctx: Ctx, s: Strategy, stream: StreamId, worlds: seq<World>): Turn {
    if worlds == [] then BeginTurn(s, stream)
    else
      var t := AfterWorlds(ctx, s, stream, worlds[..|worlds| - 1]);
      if t.verdict.Some? then t else OneAttempt(ctx, s, t, worlds[|worlds| - 1])
  }

  function Trailer(t: Turn, verdict: TurnVerdict): EmissionRecord {
    TurnTrailer(t.st.stream, t.st.attempt, verdict, t.st.readCount, t.st.installments, t.st.events, t.st.normErrors,
        t.polls)
  }

  /** A script that ends the read loop, whatever comes before: its last wake-up is one of the loop's exits. */
  predicate EndsLoop(wakes: seq<Wake>) {
    wakes != [] && !wakes[|wakes| - 1].arm.ReadArm? && !wakes[|wakes| - 1].arm.TickArm?
  }

  predicate Concludes(w: World) { (w.dial == Streaming ==> EndsLoop(w.wakes)) && w.available < U32 && w.onReturn < U32 }

  /** Enough worlds for every attempt the allowance permits, each of which comes to an end. */
  predicate EnoughWorlds(s: Strategy, worlds: seq<World>) {
    |worlds| == s.allowance + 1 && forall i | 0 <= i < |worlds| :: Concludes(worlds[i])
  }
}
