/** An attempt starts from a new machine and a new parser, so how it runs and how it ends do not depend on the attempts
    before it: the stream's counters, its attempt number and `sawAnyContent` only label records
    (chat2/src/event_handler.rs:132-136, chat2/src/openai.rs:254-268). */
module AttemptIsolation {
  import opened Text
  import opened Framing
  import opened Sse
  import opened Vocabulary
  import opened Machine
  import opened Refinement
  import opened Handler
  import opened Throughput
  import opened AttemptSpec
  import opened AttemptTrace

  /** Two attempts stand alike, whatever streams they belong to. */
  ghost predicate Alike(a: Attempt, b: Attempt) {
    a.loc == b.loc && a.buf == b.buf && a.end == b.end && a.st.fed == b.st.fed
  }

  lemma TakeAlike(decode: Decoder, a: StreamView, b: StreamView, n: nat, payload: Bytes)
    requires a.fed == b.fed
    ensures var s, t := TakeInstallment(decode, a, n, DataKind, payload),
        TakeInstallment(decode, b, n, DataKind, payload);
            && s.directive == t.directive && s.st.fed == t.st.fed
            && s.st.contentBytes - a.contentBytes == t.st.contentBytes - b.contentBytes >= 0
  {
    hide Judge, TextBytes, HasText;
  }

  lemma {:induction false} HandOverAlike(ctx: Ctx, a: Attempt, b: Attempt, data: Bytes)
    requires Alike(a, b)
    ensures Alike(HandOver(ctx, a, data), HandOver(ctx, b, data))
  {
    hide TakeInstallment, AnomalyRecords, Verdict;
    TakeAlike(ctx.decode, a.st, b.st, a.loc.instSeq, data);
  }

  lemma {:induction false} FrameAlike(ctx: Ctx, a: Attempt, b: Attempt, at: nat, gap: nat, ev: SseEvent)
    requires Alike(a, b)
    ensures Alike(OnFrame(ctx, a, at, gap, ev), OnFrame(ctx, b, at, gap, ev))
  {
    hide HandOver, PaceNotes;
    if ev.payload.Data? {
      HandOverAlike(ctx, DataReady(a, at, gap, ev), DataReady(b, at, gap, ev), ev.payload.data);
    }
  }

  lemma {:induction false} FramesAlike(ctx: Ctx, a: Attempt, b: Attempt, at: nat, gap: nat, evs: seq<SseEvent>)
    requires Alike(a, b)
    ensures Alike(OnFrames(ctx, a, at, gap, evs), OnFrames(ctx, b, at, gap, evs))
    decreases |evs|
  {
    hide OnFrame;
    if evs != [] {
      var init := evs[..|evs| - 1];
      FramesAlike(ctx, a, b, at, gap, init);
      FrameAlike(ctx, OnFrames(ctx, a, at, gap, init), OnFrames(ctx, b, at, gap, init), at, gap, evs[|evs| - 1]);
    }
  }

  lemma {:induction false} ReadAlike(ctx: Ctx, a: Attempt, b: Attempt, at: nat, bytes: Bytes)
    requires Alike(a, b)
    ensures Alike(OnRead(ctx, a, at, bytes), OnRead(ctx, b, at, bytes))
  {
    hide OnFrames, Split, EventsOf;
    var c := Split(a.buf + bytes);
    FramesAlike(ctx, CountRead(a, at, |bytes|).(buf := c.rest), CountRead(b, at, |bytes|).(buf := c.rest),
                at, Since(at, a.loc.lastReadAt), EventsOf(c.blocks));
  }

  lemma TickAlike(ctx: Ctx, a: Attempt, b: Attempt, at: nat)
    requires Alike(a, b)
    ensures Alike(OnTick(ctx, a, at), OnTick(ctx, b, at))
  {
    hide Evaluate;
  }

  lemma {:induction false} TailAlike(ctx: Ctx, a: Attempt, b: Attempt, ev: SseEvent)
    requires Alike(a, b)
    ensures Alike(OnTail(ctx, a, ev), OnTail(ctx, b, ev))
  {
    hide TakeInstallment;
    if ev.payload.Data? { TakeAlike(ctx.decode, a.st, b.st, a.loc.instSeq + 1, ev.payload.data); }
  }

  lemma {:induction false} EofAlike(ctx: Ctx, a: Attempt, b: Attempt)
    requires Alike(a, b)
    ensures Alike(OnEof(ctx, a), OnEof(ctx, b))
  {
    hide OnTail, TailEvents, Verdict, AnomalyRecords;
    if TailEvents(a.buf) != [] { TailAlike(ctx, a.(buf := []), b.(buf := []), TailEvents(a.buf)[0]); }
  }

  lemma {:induction false} StepAlike(ctx: Ctx, a: Attempt, b: Attempt, w: Wake)
    requires Alike(a, b)
    ensures Alike(Step(ctx, a, w), Step(ctx, b, w))
  {
    hide OnRead, OnTick, OnEof;
    var a1, b1 := a.(loc := a.loc.(polls := a.loc.polls + 1)), b.(loc := b.loc.(polls := b.loc.polls + 1));
    match w.arm {
      case ReadArm(bytes) => ReadAlike(ctx, a1, b1, w.at, bytes);
      case TickArm => TickAlike(ctx, a1, b1, w.at);
      case EofArm => EofAlike(ctx, a1, b1);
      case _ =>
    }
  }

  /** Whatever a stream went through before, an attempt runs the same. */
  lemma {:induction false} AttemptsAreIsolated(ctx: Ctx, st: StreamView, other: StreamView, wakes: seq<Wake>)
    requires st.fed == other.fed
    ensures Alike(AfterWakes(ctx, st, wakes), AfterWakes(ctx, other, wakes))
    decreases |wakes|
  {
    hide Step;
    if wakes != [] {
      var init := wakes[..|wakes| - 1];
      AttemptsAreIsolated(ctx, st, other, init);
      StepAlike(ctx, AfterWakes(ctx, st, init), AfterWakes(ctx, other, init), wakes[|wakes| - 1]);
    }
  }
}
