/** The refusals that the counter of normalization errors leaves out: installments with several choices
    (chat2/src/event_handler.rs:233-238). An attempt has at most one, and its frames say whether. */
module AttemptRefusals {
  import opened Text
  import opened Sse
  import opened SseRuns
  import opened Vocabulary
  import opened Handler
  import opened Refinement
  import opened AttemptSpec
  import opened AttemptTrace
  import opened AttemptOutcome
  import opened AttemptReceived
  import opened AttemptTranscript
  import opened Senses
  import AttemptIsolation

  predicate HasManyChoices(decode: Decoder, data: Bytes) {
    SenseOf(decode, data).Broken? && SenseOf(decode, data).detail.ManyChoices?
  }

  predicate IsMany(decode: Decoder, ev: SseEvent) { ev.payload.Data? && HasManyChoices(decode, ev.payload.data) }

  /** The frame that stops the reading is one with several choices. */
  predicate StopsAtMany(decode: Decoder, seen: seq<Seen>) {
    seen != []
    && var init := seen[..|seen| - 1];
       StopsAtMany(decode, init) || (!Stopped(decode, init) && IsMany(decode, seen[|seen| - 1].ev))
  }

  /** The attempt is stopped by a frame with several choices, or closes on a tail with several. */
  predicate RefusesMany(decode: Decoder, wakes: seq<Wake>) {
    var tail := TailEvents(PushAll(DEFAULT_BUF_LIMIT, [], ReadsOf(wakes)).buf);
    || StopsAtMany(decode, SeenOf(wakes))
    || (ClosedBy(wakes) && tail != [] && IsMany(decode, tail[0]))
  }

  function One(b: bool): nat { if b then 1 else 0 }

  predicate Refuses(rec: EmissionRecord) { rec.NormalizationError? && rec.error.ManyChoices? }

  predicate Unrelated(log: Log) { forall i | 0 <= i < |log| :: !Refuses(log[i]) }

  function Refused(log: Log): nat {
    if log == [] then 0 else Refused(log[..|log| - 1]) + One(Refuses(log[|log| - 1]))
  }

  lemma {:induction false} RefusedJoin(a: Log, b: Log)
    ensures Refused(a + b) == Refused(a) + Refused(b)
    decreases |b|
  {
    hide Refuses;
    if b == [] {
      assert a + b == a;
    } else {
      assert (a + b)[..|a + b| - 1] == a + b[..|b| - 1];
      RefusedJoin(a, b[..|b| - 1]);
    }
  }

  lemma {:induction false} NoneRefused(log: Log)
    requires Unrelated(log)
    ensures Refused(log) == 0
    decreases |log|
  {
    hide Refuses;
    if log != [] {
      assert !Refuses(log[|log| - 1]);
      NoneRefused(log[..|log| - 1]);
    }
  }

  lemma {:induction false} OneRefused(rec: EmissionRecord)
    ensures Refused([rec]) == One(Refuses(rec))
  {
    assert [rec][..0] == [];
  }

  lemma {:induction false} RefusedDigested(log: Log)
    ensures DigestOf(log).choiceErrors == Refused(log)
    decreases |log|
  {
    hide DigestOf;
    if log == [] {
      NoDigest(log);
    } else {
      var init, last := log[..|log| - 1], log[|log| - 1];
      assert log == init + [last];
      RefusedDigested(init);
      DigestSnoc(init, last);
    }
  }

  lemma {:induction false} UnrelatedJoin(a: Log, more: Log)
    requires Unrelated(more)
    ensures DigestOf(a + more).choiceErrors == DigestOf(a).choiceErrors
  {
    hide DigestOf, Refused, Unrelated;
    RefusedDigested(a);
    RefusedDigested(a + more);
    RefusedJoin(a, more);
    NoneRefused(more);
  }

  lemma {:induction false} RefusedTold(log: Log)
    ensures Refused(Transcript(log)) == Refused(log)
    decreases |log|
  {
    if log != [] {
      var init, last := log[..|log| - 1], log[|log| - 1];
      RefusedTold(init);
      RefusedJoin(Transcript(init), if Tells(last) then [last] else []);
      OneRefused(last);
    }
  }

  lemma {:induction false} DataRefused(decode: Decoder, st: StreamView, n: nat, data: Bytes, before: Log)
    requires Unrelated(before)
    ensures Refused(before + ToldData(decode, st, n, data)) == One(HasManyChoices(decode, data))
  {
    hide SenseOf, Refused, Unrelated;
    RefusedJoin(before, ToldData(decode, st, n, data));
    NoneRefused(before);
    match SenseOf(decode, data)
    case Broken(detail) => OneRefused(NormalizationError(st.stream, st.attempt, n, detail));
    case _ => NothingRefused(decode, st, n, data);
  }

  lemma {:induction false} NothingRefused(decode: Decoder, st: StreamView, n: nat, data: Bytes)
    requires !SenseOf(decode, data).Broken?
    ensures Refused(ToldData(decode, st, n, data)) == 0
  {
    hide SenseOf, Refused;
    NoneRefused(ToldData(decode, st, n, data));
  }

  lemma {:induction false} FrameRefused(decode: Decoder, st: StreamView, before: seq<Seen>, s: Seen)
    ensures Refused(ToldFrame(decode, st, before, s)) == One(IsMany(decode, s.ev))
  {
    hide SenseOf, Refused, ToldData, SawData, FromRead, HasManyChoices;
    if s.ev.payload.Data? {
      var n, bytes := |before| + 1, s.ev.rawByteLen;
      var head := [Installment(st.stream, st.attempt, n, FromRead(before), s.read, bytes, DataKind, s.ev.payload.data,
                     Complete)]
                  + (if SawData(before) then [] else [Wire(st.stream, st.attempt, Ttft(Ms(s.at)))])
                  + [Wire(st.stream, st.attempt, InterReadGap(Ms(s.gap), bytes))];
      DataRefused(decode, st, n, s.ev.payload.data, head);
    } else {
      NoneRefused(ToldFrame(decode, st, before, s));
    }
  }

  lemma {:induction false} ManyStops(decode: Decoder, s: Seen)
    ensures IsMany(decode, s.ev) ==> Stops(decode, s)
  {
    hide SenseOf;
  }

  lemma {:induction false} FramesRefused(decode: Decoder, st: StreamView, seen: seq<Seen>)
    ensures Refused(ToldFrames(decode, st, seen)) == One(StopsAtMany(decode, seen))
    ensures StopsAtMany(decode, seen) ==> Stopped(decode, seen)
    decreases |seen|
  {
    hide Refused, ToldFrame, IsMany, Stopped, Stops;
    if seen == [] {
      NoneRefused([]);
    } else {
      var init, s := seen[..|seen| - 1], seen[|seen| - 1];
      FramesRefused(decode, st, init);
      FrameRefused(decode, st, init, s);
      ManyStops(decode, s);
      assert seen == init + [s];
      StoppedOneMore(decode, init, s);
      RefusedJoin(ToldFrames(decode, st, init), ToldFrame(decode, st, init, s));
      if Stopped(decode, init) { assert ToldFrames(decode, st, init) + [] == ToldFrames(decode, st, init); }
    }
  }

  lemma {:induction false} TailRefused(decode: Decoder, st: StreamView, seen: seq<Seen>, readCount: nat, rest: Bytes)
    ensures Refused(ToldTail(decode, st, seen, readCount, rest))
         == One(TailEvents(rest) != [] && IsMany(decode, TailEvents(rest)[0]))
  {
    hide SenseOf, Refused, ToldData, TailEvents, FromRead, HasManyChoices;
    if TailEvents(rest) != [] && TailEvents(rest)[0].payload.Data? {
      var ev := TailEvents(rest)[0];
      var rec := Installment(st.stream, st.attempt, |seen| + 1, FromRead(seen), readCount, ev.rawByteLen, DataKind,
                             ev.payload.data, RecoveredTail);
      DataRefused(decode, st, |seen| + 1, ev.payload.data, [rec]);
    } else {
      NoneRefused(ToldTail(decode, st, seen, readCount, rest));
    }
  }

  lemma NoChoices(st: StreamView)
    ensures DigestOf(Begin(st).log).choiceErrors == 0
  {
  }

  /** A close is met only by an attempt that no frame has stopped. */
  lemma {:induction false} ClosedUnstopped(ctx: Ctx, st: StreamView, wakes: seq<Wake>)
    requires st.fed == [] && AllMet(ctx, wakes) && ClosedBy(wakes)
    ensures !Stopped(ctx.decode, SeenOf(wakes))
  {
    hide AfterWakes, Transcript, ToldFrames, Heeded, Stopped;
    var init := wakes[..|wakes| - 1];
    AttemptIsolation.AttemptsAreIsolated(ctx, st, NewStream(0), init);
    RunAbreast(ctx, st, init);
  }

  /** An attempt offers one uncounted error record if what it met is refused for several choices, and otherwise none. */
  lemma {:induction false} AttemptChoices(ctx: Ctx, st: StreamView, wakes: seq<Wake>)
    requires st.fed == []
    ensures DigestOf(AfterWakes(ctx, st, wakes).log).choiceErrors == One(RefusesMany(ctx.decode, Met(ctx, wakes)))
  {
    hide AfterWakes, DigestOf, Refused, Transcript, ToldFrames, ToldTail, StopsAtMany, Stopped, TailEvents, PushAll,
      IsMany, SeenOf;
    var met, log := Met(ctx, wakes), AfterWakes(ctx, st, wakes).log;
    MetSuffices(ctx, st, wakes);
    RefusedDigested(log);
    RefusedTold(log);
    AttemptTells(ctx, st, wakes);
    FramesRefused(ctx.decode, st, SeenOf(met));
    var frames := ToldFrames(ctx.decode, st, SeenOf(met));
    if ClosedBy(met) {
      var rest := PushAll(DEFAULT_BUF_LIMIT, [], ReadsOf(met)).buf;
      TailRefused(ctx.decode, st, SeenOf(met), |ReadsOf(met)|, rest);
      RefusedJoin(frames, ToldTail(ctx.decode, st, SeenOf(met), |ReadsOf(met)|, rest));
      ClosedUnstopped(ctx, st, met);
    } else {
      assert frames + [] == frames;
    }
  }
}
