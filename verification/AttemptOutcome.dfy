/** What an attempt resolves to depends on the bytes received and on nothing else: not on how the network cut
    them, not on ticks, not on the stream's past. */
module AttemptOutcome {
  import opened Text
  import opened Framing
  import opened Sse
  import opened SseRuns
  import opened Vocabulary
  import opened Machine
  import opened Refinement
  import opened Handler
  import opened Throughput
  import opened AttemptSpec
  import opened AttemptTrace

  // ---- the specification on the whole byte string ----

  datatype Stop = Going | AtSentinel | AtRejection

  datatype Consumed = Consumed(fed: seq<DriverEvent>, stop: Stop)

  function ConsumeOne(decode: Decoder, c: Consumed, ev: SseEvent): Consumed {
    if c.stop != Going || !ev.payload.Data? then c
    else
      match Judge(decode, ev.payload.data)
      case Reject(_, _) => c.(stop := AtRejection)
      case Accept(evs, _, done) => Consumed(c.fed + evs, if done then AtSentinel else Going)
  }

  /** Read frames in order, up to the first sentinel or the first frame the handler rejects. */
  function Consume(decode: Decoder, frames: seq<SseEvent>): Consumed {
    if frames == [] then Consumed([], Going)
    else ConsumeOne(decode, Consume(decode, frames[..|frames| - 1]), frames[|frames| - 1])
  }

  function TailFed(decode: Decoder, rest: Bytes): seq<DriverEvent> {
    var tail := TailEvents(rest);
    if tail == [] || !tail[0].payload.Data? then []
    else match Judge(decode, tail[0].payload.data) { case Accept(evs, _, _) => evs case Reject(_, _) => [] }
  }

  datatype Outcome = Outcome(fed: seq<DriverEvent>, why: EndCause)

  /** Split, decode, refine, stop at the first sentinel or rejection; otherwise add the tail, whatever is wrong with
      it. */
  function OutcomeOf(decode: Decoder, bytes: Bytes): Outcome {
    var c := Consume(decode, EventsOf(Split(bytes).blocks));
    match c.stop
    case Going => Outcome(c.fed + TailFed(decode, Split(bytes).rest), EndCause.StreamEnded)
    case AtSentinel => Outcome(c.fed, EndCause.StreamEnded)
    case AtRejection => Outcome(c.fed, HandlerAbort)
  }

  function Resolution(decode: Decoder, bytes: Bytes): TurnResolution {
    Verdict(OutcomeOf(decode, bytes).fed, OutcomeOf(decode, bytes).why)
  }

  // ---- the bytes of a script ----

  function ReadsOf(wakes: seq<Wake>): seq<Bytes> {
    if wakes == [] then []
    else
      ReadsOf(wakes[..|wakes| - 1]) +
      match wakes[|wakes| - 1].arm { case ReadArm(bytes) => [bytes] case _ => [] }
  }

  function BytesOf(wakes: seq<Wake>): Bytes { Flatten(ReadsOf(wakes)) }

  lemma {:induction false} BytesOneMore(wakes: seq<Wake>)
    requires wakes != []
    ensures var w := wakes[|wakes| - 1];
            BytesOf(wakes) == BytesOf(wakes[..|wakes| - 1]) + if w.arm.ReadArm? then w.arm.bytes else []
  {
    var w := wakes[|wakes| - 1];
    if w.arm.ReadArm? {
      FlattenSnoc(ReadsOf(wakes[..|wakes| - 1]), w.arm.bytes);
    } else {
      assert ReadsOf(wakes) == ReadsOf(wakes[..|wakes| - 1]);
    }
  }

  // ---- consuming in steps ----

  lemma {:induction false} ConsumeSticks(decode: Decoder, a: seq<SseEvent>, b: seq<SseEvent>)
    requires Consume(decode, a).stop != Going
    ensures Consume(decode, a + b) == Consume(decode, a)
    decreases |b|
  {
    if b == [] {
      assert a + b == a;
    } else {
      assert (a + b)[..|a + b| - 1] == a + b[..|b| - 1];
      ConsumeSticks(decode, a, b[..|b| - 1]);
    }
  }

  lemma {:induction false} FramesGrow(s: Bytes, t: Bytes)
    ensures EventsOf(Split(s + t).blocks) == EventsOf(Split(s).blocks) + EventsOf(Split(Split(s).rest + t).blocks)
  {
    hide Split, EventsOf;
    SplitInSteps(s, t);
    EventsJoin(Split(s).blocks, Split(Split(s).rest + t).blocks);
  }

  /** Once a frame has stopped the attempt, later bytes cannot change the outcome. */
  lemma {:induction false} OutcomeSettled(decode: Decoder, s: Bytes, t: Bytes)
    requires Consume(decode, EventsOf(Split(s).blocks)).stop != Going
    ensures OutcomeOf(decode, s + t) == OutcomeOf(decode, s)
    ensures Consume(decode, EventsOf(Split(s + t).blocks)).stop != Going
  {
    hide Split, EventsOf, Consume, TailFed;
    FramesGrow(s, t);
    ConsumeSticks(decode, EventsOf(Split(s).blocks), EventsOf(Split(Split(s).rest + t).blocks));
  }

  // ---- the loop against the specification ----

  function AnomaliesIn(log: Log): seq<Anomaly> { DigestOf(log).anomalies }

  /** The attempt so far has read `seen`, and nothing has stopped it. */
  ghost predicate InStep(ctx: Ctx, a: Attempt, seen: seq<SseEvent>) {
    a.end.None? && Consume(ctx.decode, seen) == Consumed(a.st.fed, Going)
  }

  /** The attempt was stopped by the last of the frames `seen`. */
  ghost predicate StoppedBy(ctx: Ctx, a: Attempt, seen: seq<SseEvent>) {
    var c := Consume(ctx.decode, seen);
    && c.stop != Going
    && a.end == Some(Finished(Verdict(c.fed, if c.stop == AtSentinel then EndCause.StreamEnded else HandlerAbort)))
  }

  lemma {:induction false} ConsumeOneMore(decode: Decoder, seen: seq<SseEvent>, ev: SseEvent)
    ensures Consume(decode, seen + [ev]) == ConsumeOne(decode, Consume(decode, seen), ev)
  {
    assert (seen + [ev])[..|seen|] == seen;
  }

  lemma {:induction false} FrameInStep(ctx: Ctx, a: Attempt, at: nat, gap: nat, ev: SseEvent, seen: seq<SseEvent>)
    requires InStep(ctx, a, seen)
    ensures var b := OnFrame(ctx, a, at, gap, ev);
            InStep(ctx, b, seen + [ev]) || StoppedBy(ctx, b, seen + [ev])
  {
    hide Consume, Judge, Verdict;
    ConsumeOneMore(ctx.decode, seen, ev);
  }

  lemma {:induction false} FramesInStep(ctx: Ctx, a: Attempt, at: nat, gap: nat, evs: seq<SseEvent>,
      seen: seq<SseEvent>)
    requires InStep(ctx, a, seen)
    ensures var b := OnFrames(ctx, a, at, gap, evs);
            InStep(ctx, b, seen + evs) || StoppedBy(ctx, b, seen + evs)
    decreases |evs|
  {
    hide Consume, OnFrame, Verdict;
    if evs == [] {
      assert seen + evs == seen;
    } else {
      var init, last := evs[..|evs| - 1], evs[|evs| - 1];
      FramesInStep(ctx, a, at, gap, init, seen);
      assert (seen + init) + [last] == seen + evs;
      var b := OnFrames(ctx, a, at, gap, init);
      if b.end.None? {
        FrameInStep(ctx, b, at, gap, last, seen + init);
      } else {
        ConsumeOneMore(ctx.decode, seen + init, last);
      }
    }
  }

  lemma {:induction false} FramesKeepBuffer(ctx: Ctx, a: Attempt, at: nat, gap: nat, evs: seq<SseEvent>)
    ensures OnFrames(ctx, a, at, gap, evs).buf == a.buf
    ensures OnFrames(ctx, a, at, gap, evs).end.Some? && a.end.None?
        ==> OnFrames(ctx, a, at, gap, evs).end.value.Finished?
    decreases |evs|
  {
    if evs != [] { FramesKeepBuffer(ctx, a, at, gap, evs[..|evs| - 1]); }
  }

  lemma EofEnds(ctx: Ctx, a: Attempt)
    ensures OnEof(ctx, a).end.Some? && OnEof(ctx, a).end.value.Finished?
  {
    hide Leftover, AnomaliesOf, Verdict;
  }

  /** Where an attempt stands after the bytes `seen`: still reading, settled by a frame or by the end of the stream,
      or ended on the wire. */
  ghost predicate Standing(ctx: Ctx, a: Attempt, seen: Bytes, closed: bool) {
    var frames := EventsOf(Split(seen).blocks);
    match a.end
    case None => InStep(ctx, a, frames) && a.buf == Split(seen).rest && !closed
    case Some(OnWire(_)) => true
    case Some(Finished(res)) =>
      res == Resolution(ctx.decode, seen) && (closed || Consume(ctx.decode, frames).stop != Going)
  }

  lemma StoppedResolution(ctx: Ctx, a: Attempt, seen: Bytes)
    requires StoppedBy(ctx, a, EventsOf(Split(seen).blocks))
    ensures Standing(ctx, a, seen, false)
  {
    hide Consume, Verdict, Split, EventsOf;
  }

  lemma {:induction false} ReadStanding(ctx: Ctx, a: Attempt, at: nat, bytes: Bytes, seen: Bytes)
    requires Standing(ctx, a, seen, false) && a.end.None?
    ensures Standing(ctx, OnRead(ctx, a, at, bytes), seen + bytes, false)
  {
    hide Consume, Verdict, Split, EventsOf, OnFrames, Resolution;
    var c := Split(a.buf + bytes);
    if |c.rest| <= DEFAULT_BUF_LIMIT {
      var b := CountRead(a, at, |bytes|).(buf := c.rest);
      FramesGrow(seen, bytes);
      SplitInSteps(seen, bytes);
      FramesInStep(ctx, b, at, Since(at, a.loc.lastReadAt), EventsOf(c.blocks), EventsOf(Split(seen).blocks));
      FramesKeepBuffer(ctx, b, at, Since(at, a.loc.lastReadAt), EventsOf(c.blocks));
      var d := OnRead(ctx, a, at, bytes);
      if d.end.Some? { StoppedResolution(ctx, d, seen + bytes); }
    }
  }

  lemma {:induction false} LeftoverFed(ctx: Ctx, a: Attempt)
    ensures Leftover(ctx, a).st.fed == a.st.fed + TailFed(ctx.decode, a.buf)
    ensures Leftover(ctx, a).st.sawAnyContent == (a.st.sawAnyContent || HasText(TailFed(ctx.decode, a.buf)))
  {
    hide BlockEvent, Judge;
    assert a.st.fed + [] == a.st.fed;
  }

  lemma {:induction false} EofStanding(ctx: Ctx, a: Attempt, seen: Bytes)
    requires Standing(ctx, a, seen, false) && a.end.None?
    ensures Standing(ctx, OnEof(ctx, a), seen, true)
  {
    hide Consume, Verdict, Split, EventsOf, Leftover, TailFed;
    LeftoverFed(ctx, a);
  }

  lemma {:induction false} StepStanding(ctx: Ctx, a: Attempt, w: Wake, seen: Bytes)
    requires Standing(ctx, a, seen, false) && a.end.None?
    ensures Standing(ctx, Step(ctx, a, w), seen + (if w.arm.ReadArm? then w.arm.bytes else []), w.arm.EofArm?)
  {
    hide Consume, Verdict, Split, EventsOf, OnRead, OnEof, Resolution;
    var b := a.(loc := a.loc.(polls := a.loc.polls + 1));
    assert seen + [] == seen;
    if w.arm.ReadArm? {
      ReadStanding(ctx, b, w.at, w.arm.bytes, seen);
    } else if w.arm.EofArm? {
      EofStanding(ctx, b, seen);
    }
  }

  /** Nothing comes from the stream after it has ended. */
  predicate EofIsLast(wakes: seq<Wake>) { forall i | 0 <= i < |wakes| - 1 :: !wakes[i].arm.EofArm? }

  predicate ClosedBy(wakes: seq<Wake>) { wakes != [] && wakes[|wakes| - 1].arm.EofArm? }

  lemma {:induction false} RunStanding(ctx: Ctx, st: StreamView, wakes: seq<Wake>)
    requires st.fed == [] && EofIsLast(wakes)
    ensures Standing(ctx, AfterWakes(ctx, st, wakes), BytesOf(wakes), ClosedBy(wakes)
        && AfterWakes(ctx, st, wakes).end.Some?)
    decreases |wakes|
  {
    hide Consume, Verdict, Split, EventsOf, Step, Resolution, BytesOf;
    if wakes == [] {
      NothingRead(ctx, st);
    } else {
      var init, w := wakes[..|wakes| - 1], wakes[|wakes| - 1];
      assert forall i | 0 <= i < |init| :: init[i] == wakes[i];
      RunStanding(ctx, st, init);
      BytesOneMore(wakes);
      var a := AfterWakes(ctx, st, init);
      assert !ClosedBy(init);
      if a.end.None? {
        StepStanding(ctx, a, w, BytesOf(init));
      } else if a.end.value.Finished? {
        SettledResolution(ctx.decode, BytesOf(init), if w.arm.ReadArm? then w.arm.bytes else []);
      }
    }
  }

  lemma {:induction false} SettledResolution(decode: Decoder, s: Bytes, t: Bytes)
    requires Consume(decode, EventsOf(Split(s).blocks)).stop != Going
    ensures Resolution(decode, s + t) == Resolution(decode, s)
    ensures Consume(decode, EventsOf(Split(s + t).blocks)).stop != Going
  {
    hide OutcomeOf, Consume, Split, EventsOf, Verdict;
    OutcomeSettled(decode, s, t);
  }

  lemma {:induction false} NothingRead(ctx: Ctx, st: StreamView)
    requires st.fed == []
    ensures Standing(ctx, Begin(st), BytesOf([]), false)
  {
    SplitFree([]);
  }

  /** An attempt that no timer, cancellation, transport error or overflow ends resolves to the specification
      of all its bytes, whatever the sizes of its reads and whatever ticks came between them. */
  lemma {:induction false} AttemptRefinesSpec(ctx: Ctx, st: StreamView, wakes: seq<Wake>)
    requires st.fed == [] && EofIsLast(wakes)
    requires AfterWakes(ctx, st, wakes).end.Some? && AfterWakes(ctx, st, wakes).end.value.Finished?
    ensures AfterWakes(ctx, st, wakes).end == Some(Finished(Resolution(ctx.decode, BytesOf(wakes))))
  {
    hide AfterWakes, BytesOf, Resolution, Consume, Split;
    RunStanding(ctx, st, wakes);
  }

  // ---- and such attempts do end that way ----

  predicate ReadsThenEof(wakes: seq<Wake>) {
    && wakes != [] && wakes[|wakes| - 1].arm.EofArm?
    && forall i | 0 <= i < |wakes| - 1 :: wakes[i].arm.ReadArm?
  }

  predicate OnlyReads(wakes: seq<Wake>) { forall i | 0 <= i < |wakes| :: wakes[i].arm.ReadArm? }

  /** No cut of the reads leaves more than the limit without a frame end. */
  predicate Fits(wakes: seq<Wake>) {
    forall i | 0 <= i <= |wakes| :: |Split(BytesOf(wakes[..i])).rest| <= DEFAULT_BUF_LIMIT
  }

  lemma {:induction false} ReadsNeverEndOnWire(ctx: Ctx, st: StreamView, wakes: seq<Wake>)
    requires st.fed == [] && OnlyReads(wakes) && Fits(wakes)
    ensures AfterWakes(ctx, st, wakes).end.None? || AfterWakes(ctx, st, wakes).end.value.Finished?
    decreases |wakes|
  {
    hide Split, BytesOf, OnRead, Consume, Resolution, EventsOf;
    if wakes != [] {
      var init, w := wakes[..|wakes| - 1], wakes[|wakes| - 1];
      FitsPrefix(wakes);
      assert forall i | 0 <= i < |init| :: init[i] == wakes[i];
      ReadsNeverEndOnWire(ctx, st, init);
      var a := AfterWakes(ctx, st, init);
      if a.end.None? {
        RunStanding(ctx, st, init);
        ReadFits(ctx, a.(loc := a.loc.(polls := a.loc.polls + 1)), w, init, wakes);
      }
    }
  }

  lemma {:induction false} FitsPrefix(wakes: seq<Wake>)
    requires wakes != [] && Fits(wakes)
    ensures Fits(wakes[..|wakes| - 1]) && |Split(BytesOf(wakes)).rest| <= DEFAULT_BUF_LIMIT
  {
    var init := wakes[..|wakes| - 1];
    forall i | 0 <= i <= |init| ensures |Split(BytesOf(init[..i])).rest| <= DEFAULT_BUF_LIMIT {
      assert init[..i] == wakes[..i];
    }
    assert wakes[..|wakes|] == wakes;
  }

  lemma {:induction false} ReadFits(ctx: Ctx, a: Attempt, w: Wake, init: seq<Wake>, wakes: seq<Wake>)
    requires wakes == init + [w] && w.arm.ReadArm?
    requires a.end.None? && a.buf == Split(BytesOf(init)).rest
    requires |Split(BytesOf(wakes)).rest| <= DEFAULT_BUF_LIMIT
    ensures var b := OnRead(ctx, a, w.at, w.arm.bytes);
            b.end.None? || b.end.value.Finished?
  {
    hide Split, BytesOf, OnFrames, EventsOf;
    assert wakes[..|wakes| - 1] == init;
    BytesOneMore(wakes);
    SplitInSteps(BytesOf(init), w.arm.bytes);
    var c := Split(a.buf + w.arm.bytes);
    FramesKeepBuffer(ctx, CountRead(a, w.at, |w.arm.bytes|).(buf := c.rest), w.at,
                     Since(w.at, a.loc.lastReadAt), EventsOf(c.blocks));
  }

  /** Reads followed by the peer's close, no overflow: the attempt ends with the specified resolution. */
  lemma {:induction false} CleanCloseResolves(ctx: Ctx, st: StreamView, wakes: seq<Wake>)
    requires st.fed == [] && ReadsThenEof(wakes) && Fits(wakes)
    ensures AfterWakes(ctx, st, wakes).end == Some(Finished(Resolution(ctx.decode, BytesOf(wakes))))
  {
    hide Split, BytesOf, OnRead, Standing, Resolution;
    var init := wakes[..|wakes| - 1];
    FitsPrefix(wakes);
    assert forall i | 0 <= i < |init| :: init[i] == wakes[i];
    ReadsNeverEndOnWire(ctx, st, init);
    AttemptRefinesSpec(ctx, st, wakes);
  }
}
