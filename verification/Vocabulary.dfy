/** Domain types of the conduit (chat2/src/driver.rs) and the records it offers to the bus (chat2/src/emission.rs). */
module Vocabulary {
  import opened Text

  type StreamId = nat

  datatype TokenUsage = TokenUsage(prompt: nat, completion: nat, total: nat)

  datatype DriverEvent =
    | TextDelta(text: Bytes)
    | Finish(reason: Bytes)
    | UsageReport(usage: TokenUsage)
    | Done

  datatype ChatOutcome = ChatOutcome(content: Bytes, finishReason: Bytes, usage: Option<TokenUsage>)

  /** What a `Protocol` fault says; the wording of the message is not modelled. */
  datatype Detail =
    | AdmissionDenied
    | CancelledByCaller
    | NoAlternative
    | BadChunk(error: Bytes)
    | ServerError(error: Bytes)
    | ManyChoices(n: nat)
    | HttpAnswer(status: nat, body: Bytes)
    | NotAStream(contentType: Bytes, prefix: Bytes)
    | Verbatim(text: Bytes)
    | Unexpected(cause: StreamEndCause)

  datatype DriverFault =
    | Truncated(partialChars: nat)
    | Aborted(partialChars: nat)
    | Stalled(afterSecs: nat)
    | BufferOverflow(limitBytes: nat)
    | EmptyStream
    | Protocol(detail: Detail)

  datatype TurnResolution = Resolved(outcome: ChatOutcome) | Faulted(fault: DriverFault)

  datatype InstallmentKind = DataKind | CommentKind

  datatype InstallmentStatus = Complete | RecoveredTail

  datatype StreamEndCause =
    | DoneSentinelConsumed
    | PeerClosed
    | ClosedWithNoContent
    | StallTimeout(windowSecs: nat)
    | ThroughputStarved(floorBps: nat, sustainedSecs: nat)
    | OverallDeadline(limitSecs: nat)
    | FirstByteBackstop(windowSecs: nat)
    | TransportError(detail: Bytes)
    | HandlerAborted
    | HandlerProtocolError
    | BufferOverflowed(limitBytes: nat)
    | HttpError(status: nat, body: Bytes)
    | NotAnEventStream(contentType: Bytes, body: Bytes)
    | ConnectError(detail: Bytes)
    | Cancelled

  datatype WireNote =
    | Ttft(ms: nat)
    | InterReadGap(ms: nat, bytes: nat)
    | KeepAliveComment
    | EofWithoutDoneSentinel
    | UnhandledToolCalls

  datatype SelectArm = CancelWake | OverallWake | StallWake

  datatype LedgerEntry =
    | SendBucketSpent(availableAfter: nat)
    | SendBucketReturned(availableAfter: nat)
    | SendBucketDenied
    | RetryAllowanceGranted(total: nat)
    | RetryAllowanceSpent(remaining: nat)

  datatype Anomaly = LateText | SecondFinish(reason: Bytes, kept: Bytes)

  datatype TurnVerdict =
    | Committed(outcome: ChatOutcome)
    | Failover(attemptsHere: nat)
    | Failed(fault: DriverFault)

  datatype EmissionRecord =
    | Read(stream: StreamId, attempt: nat, seqNo: nat, atMs: nat, bytes: nat, gapMs: nat)
    | Installment(stream: StreamId, attempt: nat, seqNo: nat, firstRead: nat, lastRead: nat,
                  bytes: nat, kind: InstallmentKind, payload: Bytes, status: InstallmentStatus)
    | UndecodableInstallment(stream: StreamId, attempt: nat, seqNo: nat, raw: Bytes)
    | Residue(stream: StreamId, attempt: nat, residue: Bytes)
    | NormalizedEvent(stream: StreamId, attempt: nat, installment: nat, event: DriverEvent)
    | NormalizationError(stream: StreamId, attempt: nat, installment: nat, error: Detail)
    | Wire(stream: StreamId, attempt: nat, note: WireNote)
    | AnomalySeen(stream: StreamId, attempt: nat, anomaly: Anomaly)
    | SelectWake(stream: StreamId, attempt: nat, arm: SelectArm)
    | ContentThroughput(stream: StreamId, attempt: nat, average: real)
    | StreamEnd(stream: StreamId, attempt: nat, cause: StreamEndCause, unconsumed: nat)
    | Ledger(stream: StreamId, attempt: nat, entry: LedgerEntry)
    | TurnTrailer(stream: StreamId, attempts: nat, verdict: TurnVerdict, readCount: nat, installments: nat,
                  events: nat, normErrors: nat, selectPolls: nat)
}
