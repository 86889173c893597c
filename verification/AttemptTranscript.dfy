/** Everything an attempt offers about what it read, as one list: each frame with its number, its reads and its notes,
    and what the handler makes of it, up to the frame that stops the attempt; then the tail. */
module AttemptTranscript {
  import opened Text
  import opened Framing
  import opened Sse
  import opened SseRuns
  import opened Vocabulary
  import opened Machine
  import opened Refinement
  import opened Handler
  import opened Throughput
  import opened AttemptSpec
  import opened AttemptTrace
  import opened AttemptOutcome
  import opened AttemptIsolation
  import opened AttemptReceived
  import opened Senses
  import AttemptClock

  // ---- what should be told ----

  /** A frame, the number of the read that completed it, when that was, and how long after the read before. */
  datatype Seen = Seen(ev: SseEvent, read: nat, at: nat, gap: nat)

  function Tagged(evs: seq<SseEvent>, read: nat, at: nat, gap: nat): (ss: seq<Seen>)
    ensures |ss| == |evs| && forall i | 0 <= i < |ss| :: ss[i] == Seen(evs[i], read, at, gap)
  {
    seq(|evs|, i requires 0 <= i < |evs| => Seen(evs[i], read, at, gap))
  }


  /** The frames of a script, read by read. */
  function SeenOf(wakes: seq<Wake>): seq<Seen> {
    if wakes == [] then []
    else
      var init, w := wakes[..|wakes| - 1], wakes[|wakes| - 1];
      if !w.arm.ReadArm? then SeenOf(init)
      else
        var c := Split(PushAll(DEFAULT_BUF_LIMIT, [], ReadsOf(init)).buf + w.arm.bytes);
        SeenOf(init) +
        if |c.rest| > DEFAULT_BUF_LIMIT then []
        else Tagged(EventsOf(c.blocks), |ReadsOf(wakes)|, w.at, Since(w.at, AttemptClock.LastReadTime(init)))
  }

  /** The handler wants nothing after this frame. */
  predicate Stops(decode: Decoder, s: Seen) { s.ev.payload.Data? && !SenseOf(decode, s.ev.payload.data).Says? }

  predicate Stopped(decode: Decoder, seen: seq<Seen>) { exists i | 0 <= i < |seen| :: Stops(decode, seen[i]) }

  predicate SawData(seen: seq<Seen>) { exists i | 0 <= i < |seen| :: seen[i].ev.payload.Data? }

  /** The read that the next frame's bytes may begin in. */
  function FromRead(seen: seq<Seen>): nat { if seen == [] then 1 else seen[|seen| - 1].read }

  /** What the handler makes of data number `n`. */
  function ToldData(decode: Decoder, st: StreamView, n: nat, data: Bytes): Log {
    match SenseOf(decode, data)
    case Stop => [NormalizedEvent(st.stream, st.attempt, n, Done)]
    case Broken(detail) => [NormalizationError(st.stream, st.attempt, n, detail)]
    case Says(text, finish, usage, tools) =>
      (if tools then [Wire(st.stream, st.attempt, UnhandledToolCalls)] else [])
      + (if text != [] then [NormalizedEvent(st.stream, st.attempt, n, TextDelta(text))] else [])
      + (if finish.Some? then [NormalizedEvent(st.stream, st.attempt, n, Finish(finish.value))] else [])
      + (if usage.Some? then [NormalizedEvent(st.stream, st.attempt, n, UsageReport(usage.value))] else [])
  }

  function ToldFrame(decode: Decoder, st: StreamView, before: seq<Seen>, s: Seen): Log {
    var n, from, bytes := |before| + 1, FromRead(before), s.ev.rawByteLen;
    match s.ev.payload
    case Undecodable(raw) => [UndecodableInstallment(st.stream, st.attempt, n, raw)]
    case Comment(text) =>
      [Installment(st.stream, st.attempt, n, from, s.read, bytes, CommentKind, text, Complete),
       Wire(st.stream, st.attempt, KeepAliveComment)]
    case Data(data) =>
      [Installment(st.stream, st.attempt, n, from, s.read, bytes, DataKind, data, Complete)]
      + (if SawData(before) then [] else [Wire(st.stream, st.attempt, Ttft(Ms(s.at)))])
      + [Wire(st.stream, st.attempt, InterReadGap(Ms(s.gap), bytes))]
      + ToldData(decode, st, n, data)
  }

  /** The frames in order, up to the first that stops. */
  function ToldFrames(decode: Decoder, st: StreamView, seen: seq<Seen>): Log {
    if seen == [] then []
    else
      var init := seen[..|seen| - 1];
      ToldFrames(decode, st, init)
      + if Stopped(decode, init) then [] else ToldFrame(decode, st, init, seen[|seen| - 1])
  }

  /** The bytes that no terminator followed: a frame all the same, or residue. */
  function ToldTail(decode: Decoder, st: StreamView, seen: seq<Seen>, readCount: nat, rest: Bytes): Log {
    if TailEvents(rest) == [] then if rest == [] then [] else [Residue(st.stream, st.attempt, rest)]
    else
      var ev, n := TailEvents(rest)[0], |seen| + 1;
      match ev.payload
      case Undecodable(raw) => [UndecodableInstallment(st.stream, st.attempt, n, raw)]
      case Comment(text) =>
        [Installment(st.stream, st.attempt, n, FromRead(seen), readCount, ev.rawByteLen, CommentKind, text,
           RecoveredTail)]
      case Data(data) =>
        [Installment(st.stream, st.attempt, n, FromRead(seen), readCount, ev.rawByteLen, DataKind, data, RecoveredTail)]
        + ToldData(decode, st, n, data)
  }

  function Told(decode: Decoder, st: StreamView, wakes: seq<Wake>): Log {
    ToldFrames(decode, st, SeenOf(wakes))
    + if ClosedBy(wakes) then
        ToldTail(decode, st, SeenOf(wakes), |ReadsOf(wakes)|, PushAll(DEFAULT_BUF_LIMIT, [], ReadsOf(wakes)).buf)
      else []
  }

  // ---- what is told ----

  /** The record says something about what was read. */
  predicate Tells(rec: EmissionRecord) {
    match rec
    case Installment(_, _, _, _, _, _, _, _, _) => true
    case UndecodableInstallment(_, _, _, _) => true
    case Residue(_, _, _) => true
    case NormalizedEvent(_, _, _, _) => true
    case NormalizationError(_, _, _, _) => true
    case Wire(_, _, note) => !note.EofWithoutDoneSentinel?
    case _ => false
  }

  function Transcript(log: Log): Log {
    if log == [] then []
    else Transcript(log[..|log| - 1]) + if Tells(log[|log| - 1]) then [log[|log| - 1]] else []
  }

  lemma {:induction false} TranscriptJoin(a: Log, b: Log)
    ensures Transcript(a + b) == Transcript(a) + Transcript(b)
    decreases |b|
  {
    hide Tells;
    if b == [] {
      assert a + b == a;
    } else {
      assert (a + b)[..|a + b| - 1] == a + b[..|b| - 1];
      TranscriptJoin(a, b[..|b| - 1]);
    }
  }

  predicate AllTell(log: Log) { forall i | 0 <= i < |log| :: Tells(log[i]) }

  predicate NoneTells(log: Log) { forall i | 0 <= i < |log| :: !Tells(log[i]) }

  lemma {:induction false} AddTelling(a: Log, more: Log)
    requires AllTell(more)
    ensures Transcript(a + more) == Transcript(a) + more
    decreases |more|
  {
    hide Tells;
    if more == [] {
      assert a + more == a && Transcript(a) + more == Transcript(a);
    } else {
      var init, last := more[..|more| - 1], more[|more| - 1];
      assert Tells(last);
      AddTelling(a, init);
      assert (a + more)[..|a + more| - 1] == a + init;
      assert Transcript(a) + more == Transcript(a) + init + [last];
    }
  }

  lemma {:induction false} AddSilence(a: Log, more: Log)
    requires NoneTells(more)
    ensures Transcript(a + more) == Transcript(a)
    decreases |more|
  {
    hide Tells;
    if more == [] {
      assert a + more == a;
    } else {
      var init := more[..|more| - 1];
      assert !Tells(more[|more| - 1]);
      AddSilence(a, init);
      assert (a + more)[..|a + more| - 1] == a + init;
    }
  }

  // ---- one frame ----

  function AcceptedIn(decode: Decoder, data: Bytes): nat { if SenseOf(decode, data).Broken? then 0 else 1 }

  /** The data the handler accepted. */
  function Heeded(decode: Decoder, seen: seq<Seen>): nat {
    if seen == [] then 0
    else
      var init, s := seen[..|seen| - 1], seen[|seen| - 1];
      Heeded(decode, init)
      + if Stopped(decode, init) || !s.ev.payload.Data? then 0 else AcceptedIn(decode, s.ev.payload.data)
  }

  /** The attempt has told of the frames `seen`, and of them only; it has ended exactly if one of them stops it. */
  ghost predicate Telling(ctx: Ctx, a: Attempt, st: StreamView, seen: seq<Seen>) {
    && a.st.stream == st.stream && a.st.attempt == st.attempt
    && Transcript(a.log) == ToldFrames(ctx.decode, st, seen)
    && a.st.installments == st.installments + Heeded(ctx.decode, seen)
    && (a.end.Some? <==> Stopped(ctx.decode, seen))
    && (a.end.None? ==>
          && a.loc.instSeq == |seen| && a.loc.spanStart == FromRead(seen) && (a.loc.ttftEmitted <==> SawData(seen)))
  }

  lemma {:induction false} StoppedOneMore(decode: Decoder, seen: seq<Seen>, s: Seen)
    ensures Stopped(decode, seen + [s]) <==> Stopped(decode, seen) || Stops(decode, s)
    ensures SawData(seen + [s]) <==> SawData(seen) || s.ev.payload.Data?
    ensures FromRead(seen + [s]) == s.read
  {
    hide Stops;
    var more := seen + [s];
    assert forall i | 0 <= i < |seen| :: more[i] == seen[i];
    assert more[|seen|] == s;
  }

  lemma {:induction false} ToldOneMore(decode: Decoder, st: StreamView, seen: seq<Seen>, s: Seen)
    ensures ToldFrames(decode, st, seen + [s]) ==
            ToldFrames(decode, st, seen) + if Stopped(decode, seen) then [] else ToldFrame(decode, st, seen, s)
    ensures Heeded(decode, seen + [s]) == Heeded(decode, seen) +
            if Stopped(decode, seen) || !s.ev.payload.Data? then 0 else AcceptedIn(decode, s.ev.payload.data)
  {
    hide ToldFrame, Stopped, AcceptedIn;
    assert (seen + [s])[..|seen|] == seen;
  }

  lemma {:induction false} SaidRecords(st: StreamView, n: nat, s: Sense)
    requires s.Says?
    ensures EventRecords(st, n, SaidEvents(s)) ==
            (if s.text != [] then [NormalizedEvent(st.stream, st.attempt, n, TextDelta(s.text))] else [])
            + (if s.finish.Some? then [NormalizedEvent(st.stream, st.attempt, n, Finish(s.finish.value))] else [])
            + (if s.usage.Some? then [NormalizedEvent(st.stream, st.attempt, n, UsageReport(s.usage.value))] else [])
  {
  }

  lemma {:induction false} DataTells(decode: Decoder, st: StreamView, n: nat, data: Bytes)
    ensures AllTell(ToldData(decode, st, n, data))
  {
    hide SenseOf;
  }

  lemma {:induction false} TakenSays(st: StreamView, n: nat, s: Sense)
    requires s.Says?
    ensures ToolCallNotes(st, if s.tools then 1 else 0) + EventRecords(st, n, SaidEvents(s)) ==
            (if s.tools then [Wire(st.stream, st.attempt, UnhandledToolCalls)] else [])
            + (if s.text != [] then [NormalizedEvent(st.stream, st.attempt, n, TextDelta(s.text))] else [])
            + (if s.finish.Some? then [NormalizedEvent(st.stream, st.attempt, n, Finish(s.finish.value))] else [])
            + (if s.usage.Some? then [NormalizedEvent(st.stream, st.attempt, n, UsageReport(s.usage.value))] else [])
  {
    hide EventRecords, SaidEvents;
    SaidRecords(st, n, s);
    assert ToolCallNotes(st, if s.tools then 1 else 0)
        == if s.tools then [Wire(st.stream, st.attempt, UnhandledToolCalls)] else [];
  }

  /** What the handler offers about data, and what it counts. */
  lemma {:induction false} TakenTells(decode: Decoder, st: StreamView, n: nat, data: Bytes)
    ensures var t := TakeInstallment(decode, st, n, DataKind, data);
            && t.log == ToldData(decode, st, n, data)
            && (t.directive == Continue <==> SenseOf(decode, data).Says?)
            && t.st.installments == st.installments + AcceptedIn(decode, data)
            && t.st.stream == st.stream && t.st.attempt == st.attempt
  {
    hide Judge, SenseOf, TextBytes, HasText, SaidEvents, ToolCallNotes, EventRecords;
    JudgedBySense(decode, data);
    match SenseOf(decode, data)
    case Stop => assert ToolCallNotes(st, 0) + EventRecords(st, n, [Done]) == ToldData(decode, st, n, data) by {
        DoneRecord(st, n);
      }
    case Broken(_) =>
    case Says(_, _, _, _) => TakenSays(st, n, SenseOf(decode, data));
  }

  lemma DoneRecord(st: StreamView, n: nat)
    ensures ToolCallNotes(st, 0) + EventRecords(st, n, [Done]) == [NormalizedEvent(st.stream, st.attempt, n, Done)]
  {
  }

  lemma {:induction false} SettleTells(a: Attempt, cause: StreamEndCause, why: EndCause)
    ensures var b := Settle(a, cause, why);
            && Transcript(b.log) == Transcript(a.log) && b.end.Some?
            && b.st.installments == a.st.installments && b.st.stream == a.st.stream && b.st.attempt == a.st.attempt
  {
    hide AnomaliesOf, Verdict, Transcript;
    var more := [EndRecord(a, cause)] + AnomalyRecords(a.st);
    assert Settle(a, cause, why).log == a.log + more;
    AddSilence(a.log, more);
  }

  lemma {:induction false} HandOverTells(ctx: Ctx, a: Attempt, data: Bytes)
    requires a.end.None?
    ensures var b := HandOver(ctx, a, data);
            && Transcript(b.log) == Transcript(a.log) + ToldData(ctx.decode, a.st, a.loc.instSeq, data)
            && (b.end.None? <==> SenseOf(ctx.decode, data).Says?)
            && b.st.installments == a.st.installments + AcceptedIn(ctx.decode, data)
            && b.st.stream == a.st.stream && b.st.attempt == a.st.attempt
            && b.loc == a.loc.(window := b.loc.window)
  {
    hide TakeInstallment, Settle, ToldData, SenseOf, Transcript, AcceptedIn, AllTell;
    DataTells(ctx.decode, a.st, a.loc.instSeq, data);
    var t := TakeInstallment(ctx.decode, a.st, a.loc.instSeq, DataKind, data);
    var b := a.(st := t.st, log := a.log + t.log);
    TakenTells(ctx.decode, a.st, a.loc.instSeq, data);
    AddTelling(a.log, t.log);
    SettleTells(b, DoneSentinelConsumed, EndCause.StreamEnded);
    SettleTells(b, HandlerAborted, HandlerAbort);
    SettleTells(b, HandlerProtocolError, HandlerAbort);
    SettleKeepsPlace(b, DoneSentinelConsumed, EndCause.StreamEnded);
    SettleKeepsPlace(b, HandlerAborted, HandlerAbort);
    SettleKeepsPlace(b, HandlerProtocolError, HandlerAbort);
  }

  lemma SettleKeepsPlace(a: Attempt, cause: StreamEndCause, why: EndCause)
    ensures Settle(a, cause, why).loc == a.loc
  {
  }

  /** Before the handler has seen the data. */
  lemma {:induction false} ReadyTells(a: Attempt, st: StreamView, seen: seq<Seen>, s: Seen)
    requires a.st.stream == st.stream && a.st.attempt == st.attempt && s.ev.payload.Data?
    requires a.loc.instSeq == |seen| && a.loc.spanStart == FromRead(seen) && a.loc.ttftEmitted == SawData(seen)
    requires a.loc.readSeq == s.read
    ensures var b := DataReady(a, s.at, s.gap, s.ev);
            Transcript(b.log) == Transcript(a.log)
              + [Installment(st.stream, st.attempt, |seen| + 1, FromRead(seen), s.read, s.ev.rawByteLen, DataKind,
                  s.ev.payload.data, Complete)]
              + (if SawData(seen) then [] else [Wire(st.stream, st.attempt, Ttft(Ms(s.at)))])
              + [Wire(st.stream, st.attempt, InterReadGap(Ms(s.gap), s.ev.rawByteLen))]
  {
    hide Transcript, SawData, FromRead;
    var b := Numbered(a);
    var more := [InstallmentOf(b, s.ev, Complete)] + PaceNotes(b, s.at, s.gap, s.ev.rawByteLen);
    assert DataReady(a, s.at, s.gap, s.ev).log == a.log + more;
    AddTelling(a.log, more);
  }

  lemma {:induction false} DataFrameTells(ctx: Ctx, a: Attempt, st: StreamView, seen: seq<Seen>, s: Seen)
    requires Telling(ctx, a, st, seen) && a.end.None? && a.loc.readSeq == s.read && s.ev.payload.Data?
    ensures var b := OnFrame(ctx, a, s.at, s.gap, s.ev);
            && Transcript(b.log) == Transcript(a.log) + ToldFrame(ctx.decode, st, seen, s)
            && (b.end.None? <==> !Stops(ctx.decode, s))
            && b.st.installments == a.st.installments + AcceptedIn(ctx.decode, s.ev.payload.data)
            && b.st.stream == st.stream && b.st.attempt == st.attempt
            && b.loc.instSeq == |seen| + 1 && b.loc.spanStart == s.read && b.loc.ttftEmitted
  {
    hide Transcript, HandOver, SenseOf, ToldFrames, Heeded, Stopped, ToldData, SawData, AcceptedIn, FromRead;
    var ready, d := DataReady(a, s.at, s.gap, s.ev), s.ev.payload.data;
    ReadyTells(a, st, seen, s);
    HandOverTells(ctx, ready, d);
    SameData(ctx.decode, a.st, st, |seen| + 1, d);
    assert OnFrame(ctx, a, s.at, s.gap, s.ev) == HandOver(ctx, ready, d);
  }

  lemma {:induction false} OtherFrameTells(ctx: Ctx, a: Attempt, st: StreamView, seen: seq<Seen>, s: Seen)
    requires Telling(ctx, a, st, seen) && a.end.None? && a.loc.readSeq == s.read && !s.ev.payload.Data?
    ensures var b := OnFrame(ctx, a, s.at, s.gap, s.ev);
            && Transcript(b.log) == Transcript(a.log) + ToldFrame(ctx.decode, st, seen, s)
            && b.end.None? && b.st == a.st
            && b.loc.instSeq == |seen| + 1 && b.loc.spanStart == s.read && b.loc.ttftEmitted == a.loc.ttftEmitted
  {
    hide Transcript, SenseOf, ToldFrames, Heeded, Stopped, SawData, FromRead;
    var b := Numbered(a);
    match s.ev.payload
    case Undecodable(raw) =>
      AddTelling(a.log, [UndecodableInstallment(b.st.stream, b.st.attempt, b.loc.instSeq, raw)]);
    case Comment(_) =>
      AddTelling(a.log, [InstallmentOf(b, s.ev, Complete), Note(b, KeepAliveComment)]);
  }

  lemma {:induction false} FrameTells(ctx: Ctx, a: Attempt, st: StreamView, seen: seq<Seen>, s: Seen)
    requires Telling(ctx, a, st, seen) && a.end.None? && a.loc.readSeq == s.read
    ensures Telling(ctx, OnFrame(ctx, a, s.at, s.gap, s.ev), st, seen + [s])
  {
    hide Transcript, OnFrame, SenseOf, ToldFrames, ToldFrame, Heeded, Stopped, SawData, AcceptedIn, FromRead;
    StoppedOneMore(ctx.decode, seen, s);
    ToldOneMore(ctx.decode, st, seen, s);
    if s.ev.payload.Data? { DataFrameTells(ctx, a, st, seen, s); } else { OtherFrameTells(ctx, a, st, seen, s); }
  }

  lemma SameData(decode: Decoder, a: StreamView, b: StreamView, n: nat, data: Bytes)
    requires a.stream == b.stream && a.attempt == b.attempt
    ensures ToldData(decode, a, n, data) == ToldData(decode, b, n, data)
  {
    hide SenseOf;
  }

  // ---- reads, the close, and the run ----

  lemma {:induction false} FramesKeepReads(ctx: Ctx, a: Attempt, at: nat, gap: nat, evs: seq<SseEvent>)
    ensures OnFrames(ctx, a, at, gap, evs).loc.readSeq == a.loc.readSeq
    decreases |evs|
  {
    hide TakeInstallment, Settle;
    if evs != [] {
      FramesKeepReads(ctx, a, at, gap, evs[..|evs| - 1]);
      FrameKeepsReads(ctx, OnFrames(ctx, a, at, gap, evs[..|evs| - 1]), at, gap, evs[|evs| - 1]);
    }
    hide OnFrame;
  }

  lemma FrameKeepsReads(ctx: Ctx, a: Attempt, at: nat, gap: nat, ev: SseEvent)
    ensures OnFrame(ctx, a, at, gap, ev).loc.readSeq == a.loc.readSeq
  {
    hide TakeInstallment, Verdict, AnomalyRecords, PaceNotes;
  }

  lemma {:induction false} FramesTell(ctx: Ctx, a: Attempt, st: StreamView, seen: seq<Seen>, at: nat, gap: nat,
                                      evs: seq<SseEvent>)
    requires Telling(ctx, a, st, seen) && a.end.None?
    ensures Telling(ctx, OnFrames(ctx, a, at, gap, evs), st, seen + Tagged(evs, a.loc.readSeq, at, gap))
    decreases |evs|
  {
    hide OnFrame, Telling;
    var read := a.loc.readSeq;
    if evs == [] {
      assert seen + Tagged(evs, read, at, gap) == seen;
    } else {
      var init, s := evs[..|evs| - 1], Seen(evs[|evs| - 1], read, at, gap);
      FramesTell(ctx, a, st, seen, at, gap, init);
      FramesKeepReads(ctx, a, at, gap, init);
      var b, sofar := OnFrames(ctx, a, at, gap, init), seen + Tagged(init, read, at, gap);
      assert seen + Tagged(evs, read, at, gap) == sofar + [s];
      if b.end.None? { FrameTells(ctx, b, st, sofar, s); } else { StoppedTells(ctx, b, st, sofar, s); }
    }
  }

  /** Frames after the one that stops are not told. */
  lemma {:induction false} StoppedTells(ctx: Ctx, a: Attempt, st: StreamView, seen: seq<Seen>, s: Seen)
    requires Telling(ctx, a, st, seen) && a.end.Some?
    ensures Telling(ctx, a, st, seen + [s])
  {
    hide Transcript, ToldFrames, ToldFrame, Heeded, Stopped, AcceptedIn, FromRead, SawData;
    StoppedOneMore(ctx.decode, seen, s);
    ToldOneMore(ctx.decode, st, seen, s);
    assert ToldFrames(ctx.decode, st, seen) + [] == ToldFrames(ctx.decode, st, seen);
  }

  /** A running attempt has told of the frames of its script, and its variables say where it stands in it. */
  ghost predicate Abreast(ctx: Ctx, a: Attempt, st: StreamView, wakes: seq<Wake>) {
    && a.end.None? && Telling(ctx, a, st, SeenOf(wakes))
    && a.loc.readSeq == |ReadsOf(wakes)| && a.loc.lastReadAt == AttemptClock.LastReadTime(wakes)
  }

  /** After this wake-up everything has been told that should be. */
  ghost predicate ToldAll(ctx: Ctx, a: Attempt, st: StreamView, wakes: seq<Wake>) {
    && Transcript(a.log) == Told(ctx.decode, st, wakes)
    && a.st.installments == st.installments + Heeded(ctx.decode, SeenOf(wakes)) + HeededTail(ctx.decode, wakes)
  }

  function HeededTail(decode: Decoder, wakes: seq<Wake>): nat {
    var tail := TailEvents(PushAll(DEFAULT_BUF_LIMIT, [], ReadsOf(wakes)).buf);
    if ClosedBy(wakes) && tail != [] && tail[0].payload.Data? then AcceptedIn(decode, tail[0].payload.data) else 0
  }

  /** The frames of a script with one more read. */
  lemma {:induction false} SeenOneMore(wakes: seq<Wake>, buf: Bytes)
    requires wakes != [] && wakes[|wakes| - 1].arm.ReadArm?
    requires buf == PushAll(DEFAULT_BUF_LIMIT, [], ReadsOf(wakes[..|wakes| - 1])).buf
    ensures var w, init := wakes[|wakes| - 1], wakes[..|wakes| - 1];
            var c := Split(buf + w.arm.bytes);
            SeenOf(wakes) == if |c.rest| > DEFAULT_BUF_LIMIT then SeenOf(init)
                             else SeenOf(init) + Tagged(EventsOf(c.blocks), |ReadsOf(init)| + 1, w.at,
                                                        Since(w.at, AttemptClock.LastReadTime(init)))
  {
    hide Split, EventsOf, PushAll;
    var init := wakes[..|wakes| - 1];
    assert SeenOf(init) + [] == SeenOf(init);
  }

  lemma {:induction false} CountReadTells(ctx: Ctx, a: Attempt, st: StreamView, seen: seq<Seen>, at: nat, bytes: nat,
                                          buf: Bytes)
    requires Telling(ctx, a, st, seen) && a.end.None?
    ensures var b := CountRead(a, at, bytes).(buf := buf);
            Telling(ctx, b, st, seen) && b.end.None? && b.loc.readSeq == a.loc.readSeq + 1 && b.loc.lastReadAt == at
  {
    hide Transcript, ToldFrames, Heeded, Stopped, FromRead, SawData;
    var b := CountRead(a, at, bytes).(buf := buf);
    AddSilence(a.log, [b.log[|a.log|]]);
    assert b.log == a.log + [b.log[|a.log|]];
  }

  lemma {:induction false} ToldOpen(ctx: Ctx, a: Attempt, st: StreamView, wakes: seq<Wake>)
    requires Telling(ctx, a, st, SeenOf(wakes)) && !ClosedBy(wakes)
    ensures ToldAll(ctx, a, st, wakes)
  {
    hide Transcript, ToldFrames, Heeded, Stopped;
    assert ToldFrames(ctx.decode, st, SeenOf(wakes)) + [] == ToldFrames(ctx.decode, st, SeenOf(wakes));
  }

  lemma {:induction false} OverflowTells(ctx: Ctx, a: Attempt, st: StreamView, wakes: seq<Wake>, cause: StreamEndCause)
    requires Telling(ctx, a, st, SeenOf(wakes)) && !ClosedBy(wakes)
    ensures ToldAll(ctx, EndOnWire(a, cause), st, wakes)
  {
    hide Transcript, ToldFrames, Heeded, Stopped, SeenOf;
    ToldOpen(ctx, a, st, wakes);
    AddSilence(a.log, [EndRecord(a, cause)]);
  }

  lemma {:induction false} ReadTells(ctx: Ctx, a: Attempt, st: StreamView, wakes: seq<Wake>)
    requires wakes != [] && wakes[|wakes| - 1].arm.ReadArm?
    requires Abreast(ctx, a, st, wakes[..|wakes| - 1]) && Reading(ctx, a, ReadsOf(wakes[..|wakes| - 1]))
    ensures var w := wakes[|wakes| - 1]; var b := OnRead(ctx, a, w.at, w.arm.bytes);
            && ToldAll(ctx, b, st, wakes)
            && (b.end.None? ==> Abreast(ctx, b, st, wakes))
  {
    hide Split, EventsOf, OnFrames, PushAll, Telling, ToldAll, SeenOf, Consume, EndOnWire, CountRead;
    var w, init := wakes[|wakes| - 1], wakes[..|wakes| - 1];
    var bytes := w.arm.bytes;
    var c := Split(a.buf + bytes);
    var gap := Since(w.at, a.loc.lastReadAt);
    var b := CountRead(a, w.at, |bytes|).(buf := c.rest);
    SeenOneMore(wakes, a.buf);
    CountReadTells(ctx, a, st, SeenOf(init), w.at, |bytes|, c.rest);
    if |c.rest| > DEFAULT_BUF_LIMIT {
      OverflowTells(ctx, b, st, wakes, BufferOverflowed(DEFAULT_BUF_LIMIT));
      EndedOnWire(b, BufferOverflowed(DEFAULT_BUF_LIMIT));
    } else {
      FramesTell(ctx, b, st, SeenOf(init), w.at, gap, EventsOf(c.blocks));
      FramesKeepReads(ctx, b, w.at, gap, EventsOf(c.blocks));
      FramesKeepLastRead(ctx, b, w.at, gap, EventsOf(c.blocks));
      ToldOpen(ctx, OnFrames(ctx, b, w.at, gap, EventsOf(c.blocks)), st, wakes);
    }
  }

  lemma EndedOnWire(a: Attempt, cause: StreamEndCause)
    ensures EndOnWire(a, cause).end.Some?
  {
  }

  lemma {:induction false} FramesKeepLastRead(ctx: Ctx, a: Attempt, at: nat, gap: nat, evs: seq<SseEvent>)
    ensures OnFrames(ctx, a, at, gap, evs).loc.lastReadAt == a.loc.lastReadAt
    decreases |evs|
  {
    if evs != [] {
      FramesKeepLastRead(ctx, a, at, gap, evs[..|evs| - 1]);
      FrameKeepsLastRead(ctx, OnFrames(ctx, a, at, gap, evs[..|evs| - 1]), at, gap, evs[|evs| - 1]);
    }
    hide OnFrame;
  }

  lemma FrameKeepsLastRead(ctx: Ctx, a: Attempt, at: nat, gap: nat, ev: SseEvent)
    ensures OnFrame(ctx, a, at, gap, ev).loc.lastReadAt == a.loc.lastReadAt
  {
    hide TakeInstallment, Verdict, AnomalyRecords, PaceNotes;
  }

  lemma {:induction false} TailTells(ctx: Ctx, a: Attempt, st: StreamView, seen: seq<Seen>, ev: SseEvent)
    requires Telling(ctx, a, st, seen) && a.end.None?
    ensures var b, n := OnTail(ctx, a, ev), |seen| + 1;
            && Transcript(b.log) == Transcript(a.log) +
                 (match ev.payload
                  case Undecodable(raw) => [UndecodableInstallment(st.stream, st.attempt, n, raw)]
                  case Comment(text) =>
                    [Installment(st.stream, st.attempt, n, FromRead(seen), a.loc.readSeq, ev.rawByteLen, CommentKind,
                       text, RecoveredTail)]
                  case Data(data) =>
                    [Installment(st.stream, st.attempt, n, FromRead(seen), a.loc.readSeq, ev.rawByteLen, DataKind,
                       data, RecoveredTail)]
                    + ToldData(ctx.decode, st, n, data))
            && b.st.installments == a.st.installments +
                 if ev.payload.Data? then AcceptedIn(ctx.decode, ev.payload.data) else 0
  {
    hide Transcript, TakeInstallment, SenseOf, ToldFrames, Heeded, Stopped, ToldData, SawData, AcceptedIn, FromRead,
      AllTell;
    var b := Numbered(a);
    match ev.payload
    case Undecodable(raw) =>
      OneTells(a.log, UndecodableInstallment(b.st.stream, b.st.attempt, b.loc.instSeq, raw));
    case Comment(_) =>
      OneTells(a.log, InstallmentOf(b, ev, RecoveredTail));
    case Data(d) =>
      var rec := InstallmentOf(b, ev, RecoveredTail);
      OneTells(a.log, rec);
      TakenTells(ctx.decode, b.st, b.loc.instSeq, d);
      DataTells(ctx.decode, b.st, b.loc.instSeq, d);
      AddTelling(a.log + [rec], TakeInstallment(ctx.decode, b.st, b.loc.instSeq, DataKind, d).log);
      SameData(ctx.decode, b.st, st, b.loc.instSeq, d);
  }

  lemma {:induction false} OneTells(log: Log, rec: EmissionRecord)
    requires Tells(rec)
    ensures Transcript(log + [rec]) == Transcript(log) + [rec]
  {
    AddTelling(log, [rec]);
  }

  lemma {:induction false} LeftoverTells(ctx: Ctx, a: Attempt, st: StreamView, wakes: seq<Wake>)
    requires Telling(ctx, a, st, SeenOf(wakes)) && a.end.None? && ClosedBy(wakes)
    requires a.loc.readSeq == |ReadsOf(wakes)| && a.buf == PushAll(DEFAULT_BUF_LIMIT, [], ReadsOf(wakes)).buf
    ensures ToldAll(ctx, Leftover(ctx, a), st, wakes)
  {
    hide Transcript, ToldFrames, Heeded, Stopped, SeenOf, PushAll, TailEvents, OnTail, ToldData, AcceptedIn, FromRead,
      SawData;
    var b, seen := a.(buf := []), SeenOf(wakes);
    var tail := TailEvents(a.buf);
    assert Telling(ctx, b, st, seen);
    if tail != [] {
      TailTells(ctx, b, st, seen, tail[0]);
    } else if a.buf != [] {
      OneTells(a.log, Residue(a.st.stream, a.st.attempt, a.buf));
    } else {
      assert ToldFrames(ctx.decode, st, seen) + [] == ToldFrames(ctx.decode, st, seen);
    }
  }

  lemma {:induction false} EofTells(ctx: Ctx, a: Attempt, st: StreamView, wakes: seq<Wake>)
    requires ToldAll(ctx, Leftover(ctx, a), st, wakes)
    ensures ToldAll(ctx, OnEof(ctx, a), st, wakes)
  {
    hide Transcript, Told, Heeded, HeededTail, SeenOf, Leftover, Settle;
    var b := Leftover(ctx, a);
    var cause := if b.st.sawAnyContent then PeerClosed else ClosedWithNoContent;
    SettleTells(b, cause, EndCause.StreamEnded);
    FinishEnds(b, cause, EndCause.StreamEnded);
    AddSilence(Settle(b, cause, EndCause.StreamEnded).log, [Note(b, EofWithoutDoneSentinel)]);
  }

  /** No other wake-up adds to what is told. */
  lemma {:induction false} OtherTells(ctx: Ctx, a: Attempt, w: Wake)
    requires !w.arm.ReadArm? && !w.arm.EofArm?
    ensures var b := Step(ctx, a, w);
            && a.log <= b.log && NoneTells(b.log[|a.log|..]) && b.st == a.st
            && (a.end.None? && b.end.None? ==>
                  b.loc == a.loc.(polls := b.loc.polls, gauge := b.loc.gauge, window := b.loc.window))
  {
    hide Evaluate;
  }

  lemma {:induction false} StepTells(ctx: Ctx, a0: Attempt, st: StreamView, wakes: seq<Wake>)
    requires wakes != [] && Abreast(ctx, a0, st, wakes[..|wakes| - 1])
        && Reading(ctx, a0, ReadsOf(wakes[..|wakes| - 1]))
    ensures var b := Step(ctx, a0, wakes[|wakes| - 1]);
            ToldAll(ctx, b, st, wakes) && (b.end.None? ==> Abreast(ctx, b, st, wakes))
  {
    hide Transcript, ToldFrames, Heeded, Stopped, PushAll, Consume, OnRead, OnEof, ToldAll, FromRead, SawData, Leftover;
    var w, init := wakes[|wakes| - 1], wakes[..|wakes| - 1];
    var a := a0.(loc := a0.loc.(polls := a0.loc.polls + 1));
    if w.arm.ReadArm? {
      ReadTells(ctx, a, st, wakes);
    } else if w.arm.EofArm? {
      assert ReadsOf(wakes) == ReadsOf(init) && SeenOf(wakes) == SeenOf(init);
      LeftoverTells(ctx, a, st, wakes);
      EofTells(ctx, a, st, wakes);
      EofEnds(ctx, a);
    } else {
      assert ReadsOf(wakes) == ReadsOf(init) && SeenOf(wakes) == SeenOf(init);
      OtherTells(ctx, a0, w);
      var b := Step(ctx, a0, w);
      var more := b.log[|a0.log|..];
      assert b.log == a0.log + more;
      AddSilence(a0.log, more);
      QuietToldAll(ctx, a0, st, b, wakes);
    }
  }

  lemma {:induction false} QuietToldAll(ctx: Ctx, a: Attempt, st: StreamView, b: Attempt, wakes: seq<Wake>)
    requires Telling(ctx, a, st, SeenOf(wakes)) && !ClosedBy(wakes)
    requires Transcript(b.log) == Transcript(a.log) && b.st == a.st
    ensures ToldAll(ctx, b, st, wakes)
  {
    hide Transcript, ToldFrames, Heeded, Stopped, SeenOf;
    ToldOpen(ctx, a, st, wakes);
  }

  lemma {:induction false} RunAbreast(ctx: Ctx, st: StreamView, wakes: seq<Wake>)
    requires st.fed == [] && AfterWakes(ctx, st, wakes).end.None?
    ensures Abreast(ctx, AfterWakes(ctx, st, wakes), st, wakes)
    decreases |wakes|
  {
    hide Step, Abreast, PushAll;
    if wakes == [] {
      NothingTold(ctx, st);
    } else {
      var init := wakes[..|wakes| - 1];
      RunAbreast(ctx, st, init);
      RunReads(ctx, st, init);
      StepTells(ctx, AfterWakes(ctx, st, init), st, wakes);
    }
  }

  lemma NothingTold(ctx: Ctx, st: StreamView)
    ensures Abreast(ctx, Begin(st), st, [])
  {
  }

  /** Everything an attempt says about what it read: every frame it met with its number, its reads and its notes, up to
      the first that stops it, each with what the handler makes of it; and the tail once the peer has closed. The
      counter of installments counts the data accepted. */
  lemma {:induction false} AttemptTells(ctx: Ctx, st: StreamView, wakes: seq<Wake>)
    requires st.fed == []
    ensures var a, met := AfterWakes(ctx, st, wakes), Met(ctx, wakes);
            && Transcript(a.log) == Told(ctx.decode, st, met)
            && a.st.installments == st.installments + Heeded(ctx.decode, SeenOf(met)) + HeededTail(ctx.decode, met)
  {
    hide Transcript, Told, Heeded, HeededTail, SeenOf, Step, PushAll;
    var met := Met(ctx, wakes);
    MetSuffices(ctx, st, wakes);
    if met == [] {
      NothingTold(ctx, st);
      ToldNothing(ctx, st);
    } else {
      var init := met[..|met| - 1];
      AttemptsAreIsolated(ctx, st, NewStream(0), init);
      RunAbreast(ctx, st, init);
      RunReads(ctx, st, init);
      StepTells(ctx, AfterWakes(ctx, st, init), st, met);
    }
  }

  lemma {:induction false} ToldNothing(ctx: Ctx, st: StreamView)
    ensures ToldAll(ctx, Begin(st), st, [])
  {
    NothingTold(ctx, st);
    ToldOpen(ctx, Begin(st), st, []);
  }
}
