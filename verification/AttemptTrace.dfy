/** What an attempt offers to the bus, counted and numbered. */
module AttemptTrace {
  import opened Text
  import opened Framing
  import opened Sse
  import opened Vocabulary
  import opened Machine
  import opened Refinement
  import opened Handler
  import opened Throughput
  import opened AttemptSpec

  /** The records that bound an attempt. */
  datatype Mark =
    | SpentMark(attempt: nat)
    | EndMark(attempt: nat)
    | ReturnedMark(attempt: nat)
    | DeniedMark(attempt: nat)
    | TrailerMark

  /** How many records of a kind; the anomalies, the numbers of the installments and the marks, in order.
      A refused choice list is a `choiceErrors`, every other normalization error an `errors`. */
  datatype Digest = Digest(readRecs: nat, events: nat, errors: nat, choiceErrors: nat, anomalies: seq<Anomaly>,
                           seqNos: seq<nat>, marks: seq<Mark>)

  const EMPTY := Digest(0, 0, 0, 0, [], [], [])

  function Plus(a: Digest, b: Digest): Digest {
    Digest(a.readRecs + b.readRecs, a.events + b.events, a.errors + b.errors, a.choiceErrors + b.choiceErrors,
           a.anomalies + b.anomalies, a.seqNos + b.seqNos, a.marks + b.marks)
  }

  function DigestOne(rec: EmissionRecord): Digest {
    match rec
    case Read(_, _, _, _, _, _) => EMPTY.(readRecs := 1)
    case Installment(_, _, n, _, _, _, _, _, _) => EMPTY.(seqNos := [n])
    case UndecodableInstallment(_, _, n, _) => EMPTY.(seqNos := [n])
    case NormalizedEvent(_, _, _, _) => EMPTY.(events := 1)
    case NormalizationError(_, _, _, e) => if e.ManyChoices? then EMPTY.(choiceErrors := 1) else EMPTY.(errors := 1)
    case AnomalySeen(_, _, found) => EMPTY.(anomalies := [found])
    case StreamEnd(_, n, _, _) => EMPTY.(marks := [EndMark(n)])
    case Ledger(_, n, SendBucketSpent(_)) => EMPTY.(marks := [SpentMark(n)])
    case Ledger(_, n, SendBucketReturned(_)) => EMPTY.(marks := [ReturnedMark(n)])
    case Ledger(_, n, SendBucketDenied) => EMPTY.(marks := [DeniedMark(n)])
    case TurnTrailer(_, _, _, _, _, _, _, _) => EMPTY.(marks := [TrailerMark])
    case _ => EMPTY
  }

  function DigestOf(log: Log): Digest {
    if log == [] then EMPTY else Plus(DigestOf(log[..|log| - 1]), DigestOne(log[|log| - 1]))
  }

  lemma {:induction false} PlusUnit(d: Digest)
    ensures Plus(d, EMPTY) == d && Plus(EMPTY, d) == d
  {
    assert d.seqNos + [] == d.seqNos && d.marks + [] == d.marks && d.anomalies + [] == d.anomalies;
  }

  lemma {:induction false} PlusAssociates(a: Digest, b: Digest, c: Digest)
    ensures Plus(Plus(a, b), c) == Plus(a, Plus(b, c))
  {
    assert (a.seqNos + b.seqNos) + c.seqNos == a.seqNos + (b.seqNos + c.seqNos);
    assert (a.marks + b.marks) + c.marks == a.marks + (b.marks + c.marks);
    assert (a.anomalies + b.anomalies) + c.anomalies == a.anomalies + (b.anomalies + c.anomalies);
  }

  lemma {:induction false} DigestJoin(a: Log, b: Log)
    ensures DigestOf(a + b) == Plus(DigestOf(a), DigestOf(b))
    decreases |b|
  {
    hide DigestOne, Plus;
    if b == [] {
      assert a + b == a;
      PlusUnit(DigestOf(a));
    } else {
      var init, last := b[..|b| - 1], b[|b| - 1];
      assert (a + b)[..|a + b| - 1] == a + init;
      DigestJoin(a, init);
      PlusAssociates(DigestOf(a), DigestOf(init), DigestOne(last));
    }
  }

  lemma {:induction false} DigestSingle(rec: EmissionRecord)
    ensures DigestOf([rec]) == DigestOne(rec)
  {
    hide DigestOne, Plus;
    assert [rec][..0] == [];
    PlusUnit(DigestOne(rec));
  }

  lemma {:induction false} DigestSnoc(log: Log, rec: EmissionRecord)
    ensures DigestOf(log + [rec]) == Plus(DigestOf(log), DigestOne(rec))
  {
    hide DigestOne, Plus;
    assert (log + [rec])[..|log|] == log;
  }

  /** All normalization errors offered, refused choice lists included. */
  function ErrorRecords(log: Log): nat {
    if log == [] then 0
    else ErrorRecords(log[..|log| - 1]) + if log[|log| - 1].NormalizationError? then 1 else 0
  }

  lemma {:induction false} ErrorsDigested(log: Log)
    ensures ErrorRecords(log) == DigestOf(log).errors + DigestOf(log).choiceErrors
    decreases |log|
  {
    hide DigestOf;
    if log == [] {
      NoDigest(log);
    } else {
      var init, last := log[..|log| - 1], log[|log| - 1];
      assert log == init + [last];
      ErrorsDigested(init);
      DigestSnoc(init, last);
    }
  }

  lemma {:induction false} DigestEvents(st: StreamView, n: nat, evs: seq<DriverEvent>)
    ensures DigestOf(EventRecords(st, n, evs)) == EMPTY.(events := |evs|)
    decreases |evs|
  {
    hide DigestOf;
    if evs == [] {
      NoDigest(EventRecords(st, n, evs));
    } else {
      var init, rec := evs[..|evs| - 1], NormalizedEvent(st.stream, st.attempt, n, evs[|evs| - 1]);
      DigestEvents(st, n, init);
      assert EventRecords(st, n, evs) == EventRecords(st, n, init) + [rec];
      DigestSnoc(EventRecords(st, n, init), rec);
    }
  }

  lemma NoDigest(log: Log)
    requires log == []
    ensures DigestOf(log) == EMPTY
  {
  }

  lemma {:induction false} DigestToolCalls(st: StreamView, n: nat)
    ensures DigestOf(ToolCallNotes(st, n)) == EMPTY
    decreases n
  {
    hide DigestOf, Plus;
    if n == 0 {
      NoDigest(ToolCallNotes(st, n));
    } else {
      var note := Wire(st.stream, st.attempt, UnhandledToolCalls);
      DigestToolCalls(st, n - 1);
      assert ToolCallNotes(st, n) == ToolCallNotes(st, n - 1) + [note];
      DigestSnoc(ToolCallNotes(st, n - 1), note);
      PlusUnit(EMPTY);
    }
  }

  lemma {:induction false} DigestAnomalyList(stream: StreamId, attempt: nat, found: seq<Anomaly>, log: Log)
    requires log == seq(|found|, i requires 0 <= i < |found| => AnomalySeen(stream, attempt, found[i]))
    ensures DigestOf(log) == EMPTY.(anomalies := found)
    decreases |found|
  {
    hide DigestOf;
    if found == [] {
      NoDigest(log);
    } else {
      var init, rec := found[..|found| - 1], AnomalySeen(stream, attempt, found[|found| - 1]);
      DigestAnomalyList(stream, attempt, init, log[..|log| - 1]);
      assert log == log[..|log| - 1] + [rec] && found == init + [found[|found| - 1]];
      DigestSnoc(log[..|log| - 1], rec);
    }
  }

  /** What a step adds to the log. */
  lemma {:induction false} DigestTaken(decode: Decoder, st: StreamView, n: nat, data: Bytes)
    ensures var t := TakeInstallment(decode, st, n, DataKind, data);
            && DigestOf(t.log) == EMPTY.(events := t.st.events - st.events, errors := t.st.normErrors - st.normErrors,
                 choiceErrors := if t.directive.ProtocolFault? && t.directive.detail.ManyChoices? then 1 else 0)
            && t.st.stream == st.stream && t.st.attempt == st.attempt && t.st.readCount == st.readCount
  {
    hide Judge, TextBytes, HasText, DigestOf, ToolCallNotes, EventRecords;
    JudgeCounts(decode, data);
    match Judge(decode, data)
    case Reject(detail, counted) =>
      DigestSingle(NormalizationError(st.stream, st.attempt, n, detail));
    case Accept(evs, calls, done) =>
      DigestToolCalls(st, calls);
      DigestEvents(st, n, evs);
      DigestJoin(ToolCallNotes(st, calls), EventRecords(st, n, evs));
      PlusUnit(EMPTY.(events := |evs|));
  }

  /** A rejection is counted as an error unless it is a refused choice list. */
  lemma JudgeCounts(decode: Decoder, data: Bytes)
    ensures Judge(decode, data).Reject? ==> (Judge(decode, data).counted <==> !Judge(decode, data).detail.ManyChoices?)
  {
    hide IsSentinel, ChoicesEvents, ToolCalls;
  }

  /** What an attempt so far has offered, against its own variables and the stream's counters before it. */
  ghost predicate Accounted(a: Attempt, st: StreamView) {
    var d := DigestOf(a.log);
    && d.readRecs == a.loc.readSeq && a.st.readCount == st.readCount + d.readRecs
    && a.st.events == st.events + d.events
    && a.st.normErrors == st.normErrors + d.errors
    && d.seqNos == UpTo(a.loc.instSeq)
    && d.marks == (if a.end.Some? then [EndMark(st.attempt)] else [])
    && (a.end.None? || a.end.value.OnWire? ==> d.anomalies == [])
    && a.st.stream == st.stream && a.st.attempt == st.attempt
  }

  function UpTo(n: nat): seq<nat> { seq(n, i => i + 1) }

  /** Two records are alike in the accounts when only other kinds of records are between them. */
  ghost predicate Quiet(log: Log) { DigestOf(log) == EMPTY }

  lemma {:induction false} QuietJoin(a: Log, b: Log)
    requires Quiet(b)
    ensures DigestOf(a + b) == DigestOf(a)
  {
    DigestJoin(a, b);
    PlusUnit(DigestOf(a));
  }

  lemma {:induction false} QuietNotes(a: Attempt, at: nat, gap: nat, bytes: nat)
    ensures Quiet(PaceNotes(a, at, gap, bytes))
  {
    hide DigestOf;
    var gapNote := Note(a, InterReadGap(Ms(gap), bytes));
    DigestSingle(gapNote);
    if a.loc.ttftEmitted {
      assert PaceNotes(a, at, gap, bytes) == [gapNote];
    } else {
      DigestSingle(Note(a, Ttft(Ms(at))));
      QuietJoin([Note(a, Ttft(Ms(at)))], [gapNote]);
    }
  }

  lemma {:induction false} NumberedAccounts(a: Attempt, st: StreamView, rec: EmissionRecord, b: Attempt)
    requires Accounted(a, st) && a.end.None?
    requires DigestOne(rec) == EMPTY.(seqNos := [a.loc.instSeq + 1])
    requires b.log == a.log + [rec] && b.loc.instSeq == a.loc.instSeq + 1 && b.loc.readSeq == a.loc.readSeq
    requires b.st == a.st && b.end == a.end
    ensures Accounted(b, st)
  {
    hide DigestOf;
    DigestSnoc(a.log, rec);
    assert UpTo(a.loc.instSeq) + [a.loc.instSeq + 1] == UpTo(a.loc.instSeq + 1);
  }

  lemma {:induction false} QuietAccounts(a: Attempt, st: StreamView, more: Log, b: Attempt)
    requires Accounted(a, st) && Quiet(more)
    requires b.log == a.log + more && b.loc.instSeq == a.loc.instSeq && b.loc.readSeq == a.loc.readSeq
    requires b.st == a.st && b.end == a.end
    ensures Accounted(b, st)
  {
    hide DigestOf;
    QuietJoin(a.log, more);
  }

  lemma {:induction false} TakenAccounts(ctx: Ctx, a: Attempt, st: StreamView, data: Bytes, b: Attempt)
    requires Accounted(a, st) && a.end.None?
    requires var t := TakeInstallment(ctx.decode, a.st, a.loc.instSeq, DataKind, data);
             b.st == t.st && b.log == a.log + t.log
    requires b.end == a.end && b.loc.instSeq == a.loc.instSeq && b.loc.readSeq == a.loc.readSeq
    ensures Accounted(b, st)
  {
    hide DigestOf, TakeInstallment;
    var t := TakeInstallment(ctx.decode, a.st, a.loc.instSeq, DataKind, data);
    DigestTaken(ctx.decode, a.st, a.loc.instSeq, data);
    DigestJoin(a.log, t.log);
    PlusUnit(DigestOf(a.log));
  }

  lemma {:induction false} WireAccounts(a: Attempt, st: StreamView, cause: StreamEndCause)
    requires Accounted(a, st) && a.end.None?
    ensures Accounted(EndOnWire(a, cause), st)
  {
    hide DigestOf;
    DigestSnoc(a.log, EndRecord(a, cause));
  }

  lemma {:induction false} FinishAccounts(a: Attempt, st: StreamView, cause: StreamEndCause, why: EndCause)
    requires Accounted(a, st) && a.end.None?
    ensures Accounted(Settle(a, cause, why), st)
    ensures DigestOf(Settle(a, cause, why).log).anomalies == AnomaliesOf(a.st.fed)
  {
    hide DigestOf, AnomaliesOf, Verdict;
    DigestSnoc(a.log, EndRecord(a, cause));
    DigestAnomalyList(a.st.stream, a.st.attempt, AnomaliesOf(a.st.fed), AnomalyRecords(a.st));
    DigestJoin(a.log + [EndRecord(a, cause)], AnomalyRecords(a.st));
  }

  lemma {:induction false} HandOverAccounts(ctx: Ctx, a: Attempt, st: StreamView, data: Bytes)
    requires Accounted(a, st) && a.end.None?
    ensures Accounted(HandOver(ctx, a, data), st)
    ensures var t := TakeInstallment(ctx.decode, a.st, a.loc.instSeq, DataKind, data);
            HandOver(ctx, a, data).end.Some? ==>
              DigestOf(HandOver(ctx, a, data).log).anomalies == AnomaliesOf(t.st.fed)
  {
    hide DigestOf, TakeInstallment, Accounted, Settle, AnomaliesOf;
    var t := TakeInstallment(ctx.decode, a.st, a.loc.instSeq, DataKind, data);
    var b := a.(st := t.st, log := a.log + t.log);
    TakenAccounts(ctx, a, st, data, b);
    match t.directive
    case Continue => SameAccounts(b, st, HandOver(ctx, a, data));
    case StopComplete => FinishAccounts(b, st, DoneSentinelConsumed, EndCause.StreamEnded);
    case Abort => FinishAccounts(b, st, HandlerAborted, HandlerAbort);
    case ProtocolFault(_) => FinishAccounts(b, st, HandlerProtocolError, HandlerAbort);
  }

  lemma SameAccounts(a: Attempt, st: StreamView, b: Attempt)
    requires Accounted(a, st)
    requires b.log == a.log && b.loc.instSeq == a.loc.instSeq && b.loc.readSeq == a.loc.readSeq && b.st == a.st
        && b.end == a.end
    ensures Accounted(b, st)
  {
  }

  lemma {:induction false} FrameAccounts(ctx: Ctx, a0: Attempt, at: nat, gap: nat, ev: SseEvent, st: StreamView)
    requires Accounted(a0, st) && a0.end.None?
    ensures Accounted(OnFrame(ctx, a0, at, gap, ev), st)
  {
    hide DigestOf, Accounted, HandOver, PaceNotes;
    var a := Numbered(a0);
    match ev.payload
    case Undecodable(raw) =>
      NumberedAccounts(a0, st, UndecodableInstallment(a.st.stream, a.st.attempt, a.loc.instSeq, raw),
          OnFrame(ctx, a0, at, gap, ev));
    case Comment(_) =>
      var rec := InstallmentOf(a, ev, Complete);
      NumberedAccounts(a0, st, rec, a.(log := a.log + [rec]));
      QuietNote(a, KeepAliveComment);
      assert a.log + [rec, Note(a, KeepAliveComment)] == (a.log + [rec]) + [Note(a, KeepAliveComment)];
      QuietAccounts(a.(log := a.log + [rec]), st, [Note(a, KeepAliveComment)], OnFrame(ctx, a0, at, gap, ev));
    case Data(d) =>
      var b := DataReady(a0, at, gap, ev);
      DataReadyAccounts(a0, at, gap, ev, st);
      HandOverAccounts(ctx, b, st, d);
  }

  /** The attempt just before a `data` frame is handed to the handler. */
  function DataReady(a0: Attempt, at: nat, gap: nat, ev: SseEvent): Attempt
    requires ev.payload.Data?
  {
    var a := Numbered(a0);
    var b := NextSpan(a.(log := a.log + [InstallmentOf(a, ev, Complete)] + PaceNotes(a, at, gap, ev.rawByteLen)));
    b.(loc := b.loc.(ttftEmitted := true))
  }

  lemma {:induction false} DataReadyAccounts(a0: Attempt, at: nat, gap: nat, ev: SseEvent, st: StreamView)
    requires Accounted(a0, st) && a0.end.None? && ev.payload.Data?
    ensures Accounted(DataReady(a0, at, gap, ev), st)
  {
    hide DigestOf, Accounted, PaceNotes;
    var a := Numbered(a0);
    var rec := InstallmentOf(a, ev, Complete);
    var c := a.(log := a.log + [rec]);
    NumberedAccounts(a0, st, rec, c);
    QuietNotes(a, at, gap, ev.rawByteLen);
    QuietAccounts(c, st, PaceNotes(a, at, gap, ev.rawByteLen), DataReady(a0, at, gap, ev));
  }

  lemma {:induction false} QuietNote(a: Attempt, note: WireNote)
    ensures Quiet([Note(a, note)])
  {
    DigestSingle(Note(a, note));
  }

  lemma {:induction false} FramesAccounts(ctx: Ctx, a: Attempt, at: nat, gap: nat, evs: seq<SseEvent>, st: StreamView)
    requires Accounted(a, st) && a.end.None?
    ensures Accounted(OnFrames(ctx, a, at, gap, evs), st)
    decreases |evs|
  {
    hide Accounted, OnFrame;
    if evs != [] {
      var b := OnFrames(ctx, a, at, gap, evs[..|evs| - 1]);
      FramesAccounts(ctx, a, at, gap, evs[..|evs| - 1], st);
      if b.end.None? { FrameAccounts(ctx, b, at, gap, evs[|evs| - 1], st); }
    }
  }

  lemma {:induction false} CountReadAccounts(a: Attempt, at: nat, bytes: nat, st: StreamView, b: Attempt)
    requires Accounted(a, st) && a.end.None?
    requires b == CountRead(a, at, bytes).(buf := b.buf)
    ensures Accounted(b, st)
  {
    hide DigestOf;
    DigestSnoc(a.log, b.log[|a.log|]);
  }

  lemma {:induction false} ReadAccounts(ctx: Ctx, a: Attempt, at: nat, bytes: Bytes, st: StreamView)
    requires Accounted(a, st) && a.end.None?
    ensures Accounted(OnRead(ctx, a, at, bytes), st)
  {
    hide Accounted, Split, EventsOf, OnFrames, EndOnWire;
    var c := Split(a.buf + bytes);
    var b := CountRead(a, at, |bytes|).(buf := c.rest);
    CountReadAccounts(a, at, |bytes|, st, b);
    if |c.rest| > DEFAULT_BUF_LIMIT {
      WireAccounts(b, st, BufferOverflowed(DEFAULT_BUF_LIMIT));
    } else {
      FramesAccounts(ctx, b, at, Since(at, a.loc.lastReadAt), EventsOf(c.blocks), st);
    }
  }

  lemma {:induction false} TickAccounts(ctx: Ctx, a: Attempt, at: nat, st: StreamView)
    requires Accounted(a, st) && a.end.None?
    ensures Accounted(OnTick(ctx, a, at), st)
  {
    hide Accounted, DigestOf, Evaluate, EndOnWire;
    if a.loc.firstByteAt.Some? {
      var w := Window(a.loc.window, Since(at, a.loc.firstByteAt.value) >= SECOND, at);
      var g := Evaluate(a.loc.gauge, w, ctx.cfg.floorBps);
      var rec := ContentThroughput(a.st.stream, a.st.attempt, g.average);
      var b := a.(loc := a.loc.(gauge := g, window := 0), log := a.log + [rec]);
      DigestSingle(rec);
      QuietAccounts(a, st, [rec], b);
      if Overdue(g, at, ctx.cfg.sustained) {
        WireAccounts(b, st, ThroughputStarved(ctx.cfg.floorBps, Secs(ctx.cfg.sustained)));
      }
    }
  }

  lemma {:induction false} TailAccounts(ctx: Ctx, a0: Attempt, ev: SseEvent, st: StreamView)
    requires Accounted(a0, st) && a0.end.None?
    ensures Accounted(OnTail(ctx, a0, ev), st) && OnTail(ctx, a0, ev).end.None?
  {
    hide Accounted, DigestOf, TakeInstallment;
    var a := Numbered(a0);
    match ev.payload
    case Undecodable(raw) =>
      NumberedAccounts(a0, st, UndecodableInstallment(a.st.stream, a.st.attempt, a.loc.instSeq, raw),
          OnTail(ctx, a0, ev));
    case Comment(_) =>
      NumberedAccounts(a0, st, InstallmentOf(a, ev, RecoveredTail), OnTail(ctx, a0, ev));
    case Data(d) =>
      var c := a.(log := a.log + [InstallmentOf(a, ev, RecoveredTail)]);
      NumberedAccounts(a0, st, InstallmentOf(a, ev, RecoveredTail), c);
      TakenAccounts(ctx, c, st, d, OnTail(ctx, a0, ev));
  }

  lemma {:induction false} EofAccounts(ctx: Ctx, a: Attempt, st: StreamView)
    requires Accounted(a, st) && a.end.None?
    ensures Accounted(OnEof(ctx, a), st)
    ensures DigestOf(OnEof(ctx, a).log).anomalies == AnomaliesOf(Leftover(ctx, a).st.fed)
  {
    hide Accounted, DigestOf, BlockEvent, OnTail, Settle, AnomaliesOf, Verdict;
    var b := a.(buf := []);
    var tail := TailEvents(a.buf);
    SameAccounts(a, st, b);
    if tail != [] {
      TailAccounts(ctx, b, tail[0], st);
    } else if a.buf != [] {
      DigestSingle(Residue(a.st.stream, a.st.attempt, a.buf));
      QuietAccounts(b, st, [Residue(a.st.stream, a.st.attempt, a.buf)], Leftover(ctx, a));
    }
    var l := Leftover(ctx, a);
    var cause := if l.st.sawAnyContent then PeerClosed else ClosedWithNoContent;
    FinishAccounts(l, st, cause, EndCause.StreamEnded);
    var c := Settle(l, cause, EndCause.StreamEnded);
    QuietNote(l, EofWithoutDoneSentinel);
    QuietJoin(c.log, [Note(l, EofWithoutDoneSentinel)]);
    QuietAccounts(c, st, [Note(l, EofWithoutDoneSentinel)], c.(log := c.log + [Note(l, EofWithoutDoneSentinel)]));
    FinishEnds(l, cause, EndCause.StreamEnded);
  }

  lemma FinishEnds(a: Attempt, cause: StreamEndCause, why: EndCause)
    ensures Settle(a, cause, why).end == Some(Finished(Verdict(a.st.fed, why)))
  {
  }

  lemma {:induction false} WakeAccounts(a: Attempt, st: StreamView, arm: SelectArm, cause: StreamEndCause)
    requires Accounted(a, st) && a.end.None?
    ensures Accounted(EndOnWire(Woken(a, arm), cause), st)
  {
    hide DigestOf, Accounted, EndOnWire;
    DigestSingle(SelectWake(a.st.stream, a.st.attempt, arm));
    QuietAccounts(a, st, [SelectWake(a.st.stream, a.st.attempt, arm)], Woken(a, arm));
    WireAccounts(Woken(a, arm), st, cause);
  }

  lemma {:induction false} StepAccounts(ctx: Ctx, a0: Attempt, w: Wake, st: StreamView)
    requires Accounted(a0, st) && a0.end.None?
    ensures Accounted(Step(ctx, a0, w), st)
  {
    hide Accounted, OnRead, OnTick, OnEof, EndOnWire, Woken;
    var a := a0.(loc := a0.loc.(polls := a0.loc.polls + 1));
    SameAccounts(a0, st, a);
    match w.arm
    case CancelArm => WakeAccounts(a, st, CancelWake, Cancelled);
    case OverallArm => WakeAccounts(a, st, OverallWake, OverallDeadline(Secs(ctx.cfg.overall)));
    case TickArm => TickAccounts(ctx, a, w.at, st);
    case StallArm =>
      var secs := Secs(StallWindow(ctx.cfg, a.loc));
      WakeAccounts(a, st, StallWake, if a.loc.readSeq == 0 then FirstByteBackstop(secs) else StallTimeout(secs));
    case ReadArm(bytes) => ReadAccounts(ctx, a, w.at, bytes, st);
    case EofArm => EofAccounts(ctx, a, st);
    case ErrorArm(detail) => WireAccounts(a, st, TransportError(detail));
  }

  /** In every run of an attempt: reads and events offered equal what the counters gained, counted errors too;
      installments and undecodable frames, recovered tail included, are numbered 1, 2, 3, ...; there is one
      end-of-stream record once the attempt has ended and none before; a wire exit surfaces no anomaly. */
  lemma {:induction false} AttemptAccounts(ctx: Ctx, st: StreamView, wakes: seq<Wake>)
    ensures Accounted(AfterWakes(ctx, st, wakes), st)
    decreases |wakes|
  {
    hide Accounted, Step;
    if wakes == [] {
      BeginAccounts(st);
    } else {
      var a := AfterWakes(ctx, st, wakes[..|wakes| - 1]);
      AttemptAccounts(ctx, st, wakes[..|wakes| - 1]);
      if a.end.None? { StepAccounts(ctx, a, wakes[|wakes| - 1], st); }
    }
  }

  lemma BeginAccounts(st: StreamView)
    ensures Accounted(Begin(st), st)
  {
  }
}
