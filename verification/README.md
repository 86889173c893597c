# The chat conduit, from bytes to history

The conduit sends a chat history to an endpoint that speaks the OpenAI-compatible dialect and turns the stream that
comes back into one committed answer or one typed fault. This project models it as one stack and proves, layer by layer,
that the stateful code does what a short description of it says:

- **bytes to frames to events** (`Text`, `Utf8`, `Trimming`, `Framing`, `Sse`, `SseRuns`, `SseRoundTrip`): an
  incremental parser with a bounded buffer against a one-shot splitter, UTF-8 per sections 3 and 4 of RFC 3629, and the
  frame grammar of sections 9.2.5 and 9.2.6 of the WHATWG HTML Living Standard as far as the code accepts it (LF or CRLF
  line ends, no byte order mark);
- **events to a verdict** (`Refinement`, `Senses`, `Machine`, `Handler`);
- **one attempt** (`AttemptSpec`, `AttemptOutcome`, `AttemptTrace`, `AttemptEvidence`, `AttemptSpans`, `AttemptClock`,
  `AttemptIsolation`, `AttemptReceived`, `AttemptTranscript`, `AttemptTexts`, `AttemptEnds`, `AttemptPulse`,
  `AttemptRefusals`, `AttemptPace`, `Throughput`): the `select!` loop as a fold over the wake-ups it meets, each a time
  and the arm that won;
- **one turn** (`TurnSpec`, `TurnFacts`, `TurnOutcome`, `SlowLoops`, `TurnTime`, `TurnEvidence`, `TurnLedger`,
  `Witnesses`, `Driver`): retries, admission, failover, trailer;
- **many turns** (`Pool`, `PoolTurns`): every interleaving on one bucket counter;
- **the bus** (`BusSystem`, `BusOffers`, `BusLoss`, `Emission`): every interleaving of emitters and the writer, and the
  bus as one thread uses it;
- **the session** (`ChatSpec`, `ChatFacts`, `SessionLaw`, `Session`): history, commands, hand-off to the second
  endpoint, exit.

Every module but `Text`, `Vocabulary` and the layers of lemmas has the source's own form: classes with fields, loops
with invariants. Each method is proved equal to a function on values (`Split`, `EventsOf`, `Verdict`, `Step`,
`AfterWakes`, `AfterWorlds`, `AfterLines`), and the promises are lemmas about those functions. Text is its UTF-8 bytes.
What the surroundings do is data: a `Wake` says when the loop woke and by which arm, a `World` how one attempt's request
goes and what other turns have left in the shared counter, an `Input` what each endpoint would do with one line. The
lemmas hold for all of them, and for every choice of the turns that the bus's writer takes at the awaits.

Each of those functions is also tied to a description that does not use it, so that it cannot be wrong together with its
method: frames read as what a sender meant by them (`SseRoundTrip.RoundTrip`), bytes as lists of Unicode scalar values
(`Utf8.WellFormedIff`), texts as what the decoder's answers hold (`AttemptTexts.TextsDecide`), the records of an attempt
as lists spelled out from its wake-ups (`AttemptTranscript.AttemptTells`, `AttemptEnds.AttemptEnding`,
`AttemptPulse.AttemptBeats`), the end of a turn and its ledger as what its worlds say (`TurnOutcome.TurnRefinesSpec`,
`TurnLedger.LedgerIs`), and a session as what its lines ask for (`SessionLaw.LinesObeyed`).

## Where the code and its documentation differ

The model follows the code; each point has its lemma.

- "Every exit passes `StreamMachine::finalize`" (chat2/src/lib.rs:59). Cancellation, the timers, the starvation guard, a
  transport error and an overflow return without it (chat2/src/openai.rs:288-343, 361-368), so their anomalies are never
  offered: `AttemptEvidence.AnomaliesSurfaceIff`, with `Witnesses.LostAnomaly`. There are none exactly when neither text
  nor a second finish followed a finish (`Machine.CleanIff`).
- "Nothing on the wire is silently eaten" (chat2/src/lib.rs:54). A push that overflows loses the frames it had just
  completed: `SseRuns.OverflowDropsFrames`. It has completed any only if that one read is itself longer than the limit
  of 1 MiB (`SseRuns.LossNeedsLongRead`), and events are lost exactly if such a frame gives one
  (`SseRuns.NothingEatenIff`, `Witnesses.LostFrame`). Whether a run overflows depends on how the bytes were cut
  (`SseRuns.CuttingCanOverflow`), but joining pushes never hurts (`SseRuns.MergingIsSafe`).
- "Records are dropped and the drop is itself counted and reported" (chat2/src/emission.rs:7-9). With emitters on other
  threads than the writer, the writer can empty the queue between a refused send and its count, and the last drop goes
  unreported: `BusLoss.DividedEmitLosesTheReport`. It is reported exactly when no sender stands at that point at the
  writer's last look (`BusSystem.FinalReportIff`), as is always so on one thread (`BusSystem.NoDropUnreported`).
- `ClosedWithNoContent` is meant for an attempt that produced nothing; it looks at the whole turn:
  `TurnEvidence.EmptyCloseIff`, with `Witnesses.HiddenEmptyClose`.
- The trailer's `normalization_errors` leaves out refused multi-choice installments, which are offered as
  `NormalizationError` records all the same: `TurnEvidence.TrailerCountsErrorsIff`, with `Witnesses.UncountedRefusal`.
- The arm `unreachable!("resolved above")` (chat2/src/main.rs:100) is reached exactly when a second endpoint is
  configured and both endpoints use up their allowance: `ChatFacts.CrashIff`, with `ChatFacts.CrashExample`.
- "An overall turn deadline" (chat2/src/openai.rs:6). It starts again with each attempt, and counts neither the wait for
  the head nor the body of a refusal. `TurnTime.TurnTimeTight` says how long turns can last, `TurnTime.DeadlineHoldsIff`
  in which configurations they keep the deadline. A peer that brings text can hold an attempt until the deadline; one
  that brings none is starved before (`AttemptPace.MeagreAttemptEnds`), which with the default settings makes the
  difference (`TurnTime.ShippedDeadline`).

## Model

| member | source | states |
|---|---|---|
| Utf8.WellFormedIff | chat2/src/sse.rs:76-84 | Strict decoding accepts exactly the encodings, by arithmetic on code points, of lists of Unicode scalar values |
| Utf8.EncodingIsUnique | chat2/src/sse.rs:76-84 | No two lists of scalar values have the same bytes |
| Utf8.CharCountIs | chat2/src/machine.rs:104 | The number of characters of a text is the number of its scalar values |
| Trimming.TrimsToIff | chat2/src/event_handler.rs:77 | Trimming takes exactly the characters with the White_Space property off both ends |
| Sse.EarliestStartIsEarliestEnd | chat2/src/sse.rs:139-146 | The terminator that starts first, as the parser picks it between the two kinds, is the one that is complete first; no terminator means no frame end anywhere |
| Sse.Find | chat2/src/sse.rs:62-67 | The result is a match with none before it; no result means no match at all |
| Sse.ParseBlock | chat2/src/sse.rs:70-117 | One event of a block, or none; what it is for every kind of line is `SseRoundTrip.FrameReads`, and for bytes that are no text `SseRuns.UndecodableIff` |
| Sse.SseParser.Push | chat2/src/sse.rs:135-158 | Over everything ever fed, blocks so far and buffer are the one-shot cutting; the events are those of the blocks this push completed; overflow exactly when the terminator-free rest is over the limit |
| Sse.SseParser.Buffered | chat2/src/sse.rs:161-163 | The number of bytes, of all bytes ever fed, since the last frame end |
| Sse.SseParser.FinishWithResidue | chat2/src/sse.rs:168-177 | The whole rest becomes exactly one of a recovered event and residue |
| Framing.SplitIsScan | chat2/src/sse.rs:18-20 | Cutting at the earliest terminator agrees with reading byte by byte |
| Framing.SplitInSteps | chat2/src/sse.rs:135-151 | What is left over from the first bytes is all that matters for the next ones |
| Framing.SplitIsTheOnlyCutting | chat2/src/sse.rs:18-20 | Any list of whole frames and frame-free rest that spells the same bytes is the splitter's |
| SseRuns.Reassemble | chat2/src/sse.rs:125-158 | Pushing until an overflow gives the run that the lemmas below are about |
| SseRuns.ChunkingInvariance | chat2/src/sse.rs:135-158 | A run without overflow gives the events and the buffer of the one-shot splitter on all its bytes |
| SseRuns.CuttingsAgree | chat2/src/sse.rs:135-158 | Two cuttings of the same bytes cannot be told apart |
| SseRuns.RunConservesBytes | chat2/src/sse.rs:135-151 | Blocks with their terminators, then the buffer, are the bytes fed; each block is one whole frame; events are the in-order image of the blocks |
| SseRuns.OverflowIff | chat2/src/sse.rs:152-157 | A run overflows exactly when after some push the bytes since the last frame end exceed the limit |
| SseRuns.MergingIsSafe | chat2/src/sse.rs:152-157 | Delivering two adjacent pushes as one never introduces an overflow |
| SseRuns.CuttingCanOverflow | chat2/src/sse.rs:152-157 | Cutting one push in two can introduce one |
| SseRuns.OverflowDropsFrames | chat2/src/sse.rs:137-156 | In any run the first overflowing push yields none of the frames it completed: the run's events are exactly those of the bytes before that push, its buffer what is left of the bytes including it |
| SseRuns.FramesLostWithTheRest | chat2/src/sse.rs:137-156 | Bytes that give their events alone give none when an oversized rest comes in the same push |
| SseRuns.LossNeedsLongRead | chat2/src/sse.rs:137-156 | An overflowing push has completed a frame only if it is itself longer than the limit |
| SseRuns.NothingEatenIff | chat2/src/sse.rs:137-156 | An overflow loses no event of the bytes received exactly when the overflowing push completed no frame that gives one; pushes within the limit never lose any |
| SseRuns.EventsArePrefix | chat2/src/sse.rs:135-158 | Overflow or not, the events of a run are the first of the one-shot splitter's |
| SseRuns.Utf8Safety | chat2/src/sse.rs:70-84 | The bytes of any list of scalar values never give an undecodable frame, however they are cut and even if the run overflows, nor an undecodable tail |
| SseRuns.UndecodableIff | chat2/src/sse.rs:76-84 | A block is undecodable exactly if no list of scalar values has its bytes, and is reported with those bytes |
| SseRuns.BadFrameIsIsolated | chat2/src/sse.rs:70-84 | A frame whose bytes are no text is reported with exactly those bytes and changes no other frame; a run that overflows gives the first of these events |
| SseRoundTrip.FrameReads | chat2/src/sse.rs:87-117 | A frame of data lines with one space or none, bare data lines, other fields with or without colon, and comment lines is one whole frame: its data values joined by LF, nothing if it has none, and the comment, whole, if it begins with one |
| SseRoundTrip.RoundTrip | chat2/src/sse.rs:70-158 | Frames of any lines, each line with LF or CRLF, cut anyhow without overflow, give exactly their meanings, in order, with an empty buffer |
| SseRoundTrip.TailReads | chat2/src/sse.rs:168-177 | A last frame without terminator stays in the buffer and reads as its meaning |
| SseRoundTrip.TextsComeBack | chat2/src/sse.rs:94-117 | Texts of any characters sent as data lines come back exactly; with LF line ends a text must not hold CRLF, which would be read as a line end |
| Refinement.Normalize | chat2/src/event_handler.rs:76-108 | The events, tool calls and choices of one text, or the error; what they are for each answer of the decoder is `Senses.JudgedBySense` |
| Refinement.AcceptedShape | chat2/src/event_handler.rs:76-108 | What is accepted is the sentinel alone, or at most text, finish and usage in that order with text never empty; two or more choices are always refused |
| Senses.SentinelIff | chat2/src/event_handler.rs:77 | A text is the sentinel exactly if it is `[DONE]` with white space around it |
| Senses.JudgedBySense | chat2/src/event_handler.rs:76-108 | The handler accepts or refuses a text as the decoder's answer says: sentinel, undecodable, error, several choices, else its text, finish, usage and tool calls |
| Machine.StreamMachine.Feed | chat2/src/machine.rs:70-99 | The fields are always content, first finish, last usage and anomalies of everything fed |
| Machine.StreamMachine.Finalize | chat2/src/machine.rs:103-122 | The verdict on everything fed |
| Machine.VerdictIff | chat2/src/machine.rs:103-122 | An outcome is issued exactly on a finish reason without an abort, and each fault exactly in its case, an abort and a cut-off answer with the number of characters received; the sentinel and usage decide nothing |
| Machine.ContentJoin | chat2/src/machine.rs:77 | Content is the in-order concatenation of the deltas, also across any cut of the events |
| Machine.FirstFinishIsFirst | chat2/src/machine.rs:79-86 | The finish kept is that of the first finish event, and there is none exactly if there was no such event |
| Machine.LastUsageIsLast | chat2/src/machine.rs:88-94 | The usage kept is the last one reported |
| Machine.CleanIff | chat2/src/machine.rs:72-83 | No anomaly is recorded exactly when neither text nor a second finish follows a finish |
| Machine.AnomaliesAre | chat2/src/machine.rs:72-83 | The anomalies are one for each text and each finish after the first finish, in order, each second finish with the one kept |
| Handler.StreamState.BeginAttempt | chat2/src/event_handler.rs:132-136 | A new machine; every counter of the turn, and whether it saw text, carries over |
| Handler.EventHandler.AcquireSendBucket | chat2/src/event_handler.rs:179-190 | Takes a bucket exactly if there is one, and records what was left or the refusal |
| Handler.EventHandler.ReturnSendBucket | chat2/src/event_handler.rs:192-195 | Adds one bucket in 32 bits and records it |
| Handler.EventHandler.OnWireFault | chat2/src/event_handler.rs:200-207 | Allowance first, then the alternative, then giving up |
| Handler.EventHandler.OnInstallment | chat2/src/event_handler.rs:212-262 | New state, records and directive of one installment, refusals and their counting included |
| Handler.EventHandler.FinalizeAttempt | chat2/src/event_handler.rs:265-276 | The verdict on what the machine was fed, its anomalies offered, a fresh machine |
| Throughput.EvalThroughput | chat2/src/openai.rs:495-513 | The next average and clock, and whether the clock is overdue |
| Throughput.AverageIsWeighted | chat2/src/openai.rs:504 | From rest the average is two fifths of each window's bytes, less by two fifths for every window since |
| Throughput.TripsIff | chat2/src/openai.rs:495-513 | The guard trips exactly when some streak of warmed low windows ending now spans the sustained time |
| Throughput.StarvationSoundness | chat2/src/openai.rs:495-513 | If it trips, k such windows in a row hold less content than floor * (k + 1.5) |
| Throughput.StarvationLiveness | chat2/src/openai.rs:495-513 | Silence trips it within j windows of decay and the sustained time in whole seconds |
| Throughput.NeverTrips | chat2/src/openai.rs:495-513 | It never trips without a floor, nor from an average at the floor with windows at the floor |
| Throughput.AtFloorTripsIff | chat2/src/openai.rs:264-265 | From rest, where every attempt starts, windows of the floor or less never bring the average up to it: the guard trips exactly when the last warmed windows span the sustained time |
| Throughput.NeverTripsFromRest | chat2/src/openai.rs:495-513 | From rest it never trips if the windows exceed the floor by enough for the average to have risen at each warmed window |
| AttemptOutcome.AttemptRefinesSpec | chat2/src/openai.rs:270-453 | An attempt that ends through the handler resolves to split, decode, refine, stop at the first sentinel or refused frame, fold, on all its bytes, whatever the read sizes |
| AttemptOutcome.CleanCloseResolves | chat2/src/openai.rs:335-453 | Reads within the limit followed by the peer's close always end that way |
| AttemptOutcome.OutcomeSettled | chat2/src/openai.rs:407-419 | Once a frame has stopped the attempt, later bytes cannot change the outcome |
| AttemptTexts.TextsDecide | chat2/src/event_handler.rs:212-276 | Texts put into frames and read anyhow: content, first finish and last usage of the texts before the first that stops; a broken one cuts the attempt off at the characters before it and is reported once, with its number and the decoder's own error, counted unless it has several choices |
| AttemptTranscript.AttemptTells | chat2/src/openai.rs:370-443 | All records about what was read, exactly and in order: each frame with number, reads, notes and what the handler makes of it, up to the frame that stops the attempt, then the tail or residue; the counter of installments is the data accepted |
| AttemptEnds.AttemptEnding | chat2/src/openai.rs:287-452 | All records of the end, read off the last wake-up and the bytes: the arm that woke the loop, the cause with its seconds, limit or detail, the bytes unconsumed, and the note of an answer complete without a sentinel |
| AttemptPulse.AttemptBeats | chat2/src/openai.rs:300-358 | All records of pace: each read with number, time, size and gap, and at each tick after the first read the weighted average of the windows closed |
| AttemptIsolation.AttemptsAreIsolated | chat2/src/openai.rs:254-268 | However a stream's earlier attempts went, an attempt runs and ends the same: variables, buffer, events fed, ending |
| AttemptTrace.AttemptAccounts | chat2/src/openai.rs:346-441 | Reads and events offered equal what the counters gained; installments and undecodable frames, tail included, are numbered exactly 1..k; one end-of-stream record once ended, none before |
| AttemptReceived.ExitKind | chat2/src/openai.rs:287-453 | Whether an attempt ends through the handler can be told from the last wake-up met: the peer's close, or a read that overflows nothing; on every other exit the machine still holds the events of all frames read |
| AttemptEvidence.AnomaliesSurfaceIff | chat2/src/openai.rs:288-343 | The anomalies of what the machine was given are offered, all and in order, on the handler's exits and none on the others; so none is lost exactly on a handler's exit or when there was none |
| AttemptEvidence.RunHeard | chat2/src/event_handler.rs:246-249 | After an attempt, however it ended, the stream's flag says whether its frames or the turn before it had text |
| AttemptEvidence.ClosedWithNoContentIff | chat2/src/openai.rs:446-447 | The one end record of an attempt the peer closes says "closed with no content" exactly if neither the flag was set before nor the attempt had text |
| TurnEvidence.TurnHeard | chat2/src/event_handler.rs:132-136 | While a turn is undecided the flag says whether any of its attempts so far had text |
| TurnEvidence.EmptyCloseIff | chat2/src/openai.rs:446-447 | That end is recorded exactly if no attempt of the turn, this one included, had any text |
| AttemptRefusals.AttemptChoices | chat2/src/event_handler.rs:233-238 | An attempt offers one uncounted error record if a frame that stops it, or the tail it closes on, has several choices, and otherwise none |
| TurnEvidence.TrailerCountsErrorsIff | chat2/src/openai.rs:169-183 | The trailer counts every error record of the turn exactly if no attempt met such a refusal, and is one short for each that did |
| Witnesses.LostFrame | chat2/src/sse.rs:137-156 | A frame and one byte more than the default limit: apart the frame gives its event, in one read nothing |
| Witnesses.LostAnomaly | chat2/src/openai.rs:335-343 | Finish, text, a broken connection: the machine holds an anomaly and no record shows it |
| Witnesses.HiddenEmptyClose | chat2/src/openai.rs:446-447 | Text and a broken connection, then a close with nothing at all: recorded as a close in mid-answer |
| Witnesses.UncountedRefusal | chat2/src/event_handler.rs:233-238 | One frame with two choices: an error record is offered and the trailer counts none |
| AttemptSpans.EveryInstallmentIsSpanned | chat2/src/openai.rs:387-391 | Each installment's bytes are a stretch of the bytes received that lies within the reads first_read to last_read, and read as that installment |
| AttemptClock.StepTimes | chat2/src/openai.rs:270-277 | Only a read moves the stall clock; no other wake-up, a throughput tick in particular, moves the stall deadline |
| AttemptClock.OverallHolds | chat2/src/openai.rs:278-279 | The overall timer, armed anew on every turn of the loop with the time that is left, is always due at the deadline |
| AttemptClock.ClockSafety | chat2/src/openai.rs:270-335 | No wake-up is later than the first-byte backstop, the stall window after the last read, or the overall deadline |
| AttemptClock.StallFiresOnTime | chat2/src/openai.rs:325-333 | The stall timer fires exactly one window after the last read and says so |
| AttemptClock.OverallFiresOnTime | chat2/src/openai.rs:294-299 | The overall timer fires exactly at the deadline and says so |
| AttemptClock.StarvedAttempt | chat2/src/openai.rs:300-324 | An attempt that ends as starved had k low warmed windows in a row over the sustained time with less than floor * (k + 1.5) bytes of text |
| AttemptClock.WindowsHoldTheText | chat2/src/openai.rs:402-406 | Closed windows and pending bytes make up exactly the text produced so far |
| AttemptClock.SilenceStarves | chat2/src/openai.rs:300-324 | An attempt that falls silent ends as starved within the ticks that bring its average below the floor and the sustained time in whole seconds |
| AttemptPace.MeagreAttemptEnds | chat2/src/openai.rs:266-324 | On prompt timers, ticks included, an attempt whose windows never exceed the floor meets no wake-up later than first-byte backstop + one second + sustained time, in whole seconds |
| AttemptPace.SilentIsMeagre | chat2/src/openai.rs:396-406 | Where no frame of the dialect brings text, every attempt is such a one |
| AttemptPace.TalkerNeverStarves | chat2/src/openai.rs:300-324 | An attempt whose windows exceed the floor by enough for the average to have risen at each warmed window never ends as starved |
| SlowLoops.LongestLoop | chat2/src/openai.rs:256-344 | With windows of whole seconds some loop on prompt timers, ticks included, lasts as long as any can: to the overall deadline where some frame brings text or there is no floor, and else until the guard trips |
| Driver.OpenAiCompatDriver.OnWake | chat2/src/openai.rs:279-421 | One wake-up of the loop takes the objects and the loop's variables exactly where the specification's step goes |
| Driver.OpenAiCompatDriver.ReadLoop | chat2/src/openai.rs:254-453 | The loop, stopping as soon as the attempt ends, is the fold over its wake-ups |
| Driver.OpenAiCompatDriver.RunAttempt | chat2/src/openai.rs:186-453 | Request and read loop: state, records, polls and ending of the attempt |
| Driver.OpenAiCompatDriver.MakeAttempt | chat2/src/openai.rs:141-166 | One trip round the turn's loop, bucket taken and returned, whatever other turns did to the counter |
| Driver.OpenAiCompatDriver.ExecuteTurn | chat2/src/openai.rs:129-184 | The turn's verdict, everything it offers with one trailer last, and the counter it leaves; what these are is `TurnOutcome.TurnRefinesSpec`, `TurnOutcome.GivesUp` and `TurnLedger.LedgerIs` |
| TurnFacts.TurnEnds | chat2/src/openai.rs:140-167 | A verdict within allowance + 1 attempts; failover and giving up only at the last, and which of them depends only on whether an alternative is known |
| TurnFacts.DecisionPoint | chat2/src/event_handler.rs:200-207 | At each decision attempts made and allowance left add up to allowance + 1 |
| TurnFacts.CommittedIsLastAttempt | chat2/src/openai.rs:148 | What is committed is exactly what the last attempt's bytes say: deltas in order, first finish, last usage |
| TurnFacts.TraceAgrees | chat2/src/openai.rs:169-183 | One trailer, at the end; one end-of-stream record between each bucket spent and returned; the trailer's figures are the numbers of records offered, but for the refused choice lists that its count of errors leaves out |
| TurnFacts.DeniedIff | chat2/src/openai.rs:142-144 | A turn is refused admission exactly when its last attempt finds the counter at zero |
| TurnTime.TurnTimeBounded | chat2/src/openai.rs:206-344 | A turn lasts at most (allowance + 1) * (first-byte backstop + max(stall, longest loop)), and no loop outlasts the overall deadline |
| TurnTime.TurnTimeTight | chat2/src/openai.rs:206-344 | With windows of whole seconds some turn on prompt timers, ticks included, lasts exactly that long |
| TurnTime.DeadlineHoldsIff | chat2/src/openai.rs:256-344 | With windows of whole seconds every prompt turn ends by the overall deadline exactly if that bound is within it; where some frame brings text or there is no floor, exactly with no retry, no time for the head, and a stall window within the deadline |
| TurnTime.ShippedDeadline | chat2/src/openai.rs:66-70 | With the default settings and one retry, turns keep the deadline of 600 s exactly if no frame of the dialect brings text: 522 s against 1440 s |
| TurnOutcome.TurnRefinesSpec | chat2/src/openai.rs:140-167 | The turn's verdict is decided by the first attempt that is refused, commits or is cancelled, else by the last fault, all read off the worlds; no counter, log or earlier attempt matters |
| TurnOutcome.FailoverIff | chat2/src/event_handler.rs:200-207 | Failover exactly when an alternative is known and every attempt is admitted and faults |
| TurnOutcome.AttemptEndsAsFated | chat2/src/openai.rs:478-489 | An attempt ends as its surroundings say, without regard to causes or faults in between: outcome, cancellation, or the fault with its words, seconds or limit |
| TurnOutcome.GivesUp | chat2/src/openai.rs:140-167 | A turn that gives up fails as its last world says: status and body, content type and first 400 characters, the error's words, the seconds of the timer that fired, the buffer limit, or what the bytes come to |
| TurnOutcome.FirstCharsReads | chat2/src/openai.rs:248 | The prefix kept of a wrong answer is its first characters, never part of one |
| TurnOutcome.NoStreamRecorded | chat2/src/openai.rs:206-252 | A request that brings no stream leaves exactly one record, its end with what the answer was |
| TurnLedger.LedgerIs | chat2/src/openai.rs:129-184 | The ledger, exactly: allowance granted, each attempt's bucket taken and returned with what was left, or refused, and each retry with what is left of the allowance; the trailer's polls are the wake-ups met, its installments the data accepted |
| Pool.PoolConserved | chat2/src/event_handler.rs:179-195 | In every interleaving available and held buckets make up the pool, at most that many attempts are in flight, and no turn outruns its allowance |
| Pool.ReturnNeverWraps | chat2/src/event_handler.rs:192-195 | The 32-bit counter never wraps and never exceeds the pool |
| Pool.AllReturned | chat2/src/event_handler.rs:192-195 | The counter is back at the pool exactly when no attempt is in flight |
| Pool.NeverDenied | chat2/src/event_handler.rs:179-190 | With no more turns at a time than buckets none is ever refused, on a first attempt or a retry |
| Pool.DenialIff | chat2/src/event_handler.rs:179-190 | A refusal is possible exactly when there are more turns at a time than buckets |
| Pool.TakeStep | chat2/src/event_handler.rs:179-207 | The handler's own methods take the steps of the interleaving |
| PoolTurns.AdmittedSteps | chat2/src/openai.rs:140-167 | A turn's attempt is an acquire, a return and a decision of the interleaving, whatever happens in between |
| PoolTurns.RefusedStep | chat2/src/openai.rs:142-144 | A refused attempt is one step that ends the turn |
| PoolTurns.SeatPlaysTurn | chat2/src/openai.rs:140-167 | In any interleaving a seat stands where the turn stands that meets what the seat met |
| PoolTurns.NoTurnDenied | chat2/src/event_handler.rs:179-190 | With no more turns at a time than buckets, no turn of any interleaving comes to the verdict "admission denied" |
| BusSystem.BusConservation | chat2/src/emission.rs:151-198 | In every interleaving: the queue is bounded; offered = written + queued + counted or about to be counted as dropped; what is written is an in-order part of what was offered; every sink has the same stream |
| BusOffers.RefusedIffFull | chat2/src/emission.rs:183-185 | Each offer of any run was made by one send, and refused exactly if that send met a queue at capacity |
| BusOffers.SampledEvery256 | chat2/src/emission.rs:189-197 | In every run the latency samples tried, or about to be, are one for every 256 emits |
| BusSystem.FinalReportIff | chat2/src/emission.rs:155-187 | Once the writer has exited, its last report is the number of records refused exactly when, at its last look at the counter, no sender stood between a refused send and its count |
| BusSystem.NoDropUnreported | chat2/src/emission.rs:155-187 | If nothing comes between a refused send and its count, then after the writer's exit the last report in every sink is the number of records refused |
| BusLoss.DividedEmitLosesTheReport | chat2/src/emission.rs:183-185 | Whatever the capacity and however many sinks, some run ends with an unreported drop exactly when there is an emitter |
| Emission.EmissionBus.Spawn | chat2/src/emission.rs:151-173 | A new bus, open and running |
| Emission.EmissionBus.Emit | chat2/src/emission.rs:181-198 | One whole call is a run of the bus's actions; the record is offered once and every invariant of the bus is kept |
| Emission.EmissionBus.WriteNext | chat2/src/emission.rs:157-170 | One turn of the writer, with emitters still there or not, is a run of the bus's actions |
| Emission.EmissionBus.LetWriterRun | chat2/src/emission.rs:155-171 | Any number of the writer's turns at an await takes nothing from what was offered and keeps every invariant of the bus |
| Emission.EmissionBus.DrainAndExit | chat2/src/emission.rs:155-171 | After the last sender is gone every accepted record reaches every sink, in order, and the last report is the number refused |
| Session.Resolve | chat2/src/main.rs:80-94 | The verdict the loop acts on, after the hand-off if there is one |
| Session.TakeLine | chat2/src/main.rs:65-101 | One line: blank, quit, reset or a turn, with the history and stream numbers it leaves; what these are is `SessionLaw.LinesObeyed` |
| Session.Converse | chat2/src/main.rs:60-103 | The prompt loop is the fold over its lines; the bus is offered exactly the records of its turns |
| Session.RunProgram | chat2/src/main.rs:57-114 | Whatever turns the writer takes at the awaits: at exit, unless the loop panicked, every record of every turn is in every sink, in order, or counted as dropped and reported |
| ChatFacts.HistoryWellFormed | chat2/src/main.rs:57-103 | At every prompt: system message if any, then whole user/assistant pairs, each answer committed by a turn that was sent exactly the history before it |
| SessionLaw.LinesObeyed | chat2/src/main.rs:57-103 | At a prompt the history is the head and the pairs of all turns committed since the last line that trims to `/reset`, in order; each turn was sent the history at its prompt and its own line; blank lines ask nothing, and nothing is asked after `/quit`, `/exit` or the panic |
| ChatFacts.AssistantTextIsWireText | chat2/src/main.rs:98 | Every assistant message is, in full, what one attempt of one turn received for that history |
| ChatFacts.CrashIff | chat2/src/main.rs:97-101 | The unreachable arm is reached exactly when both endpoints use up their allowance |
| ChatFacts.CrashExample | chat2/src/main.rs:97-101 | Two peers that never answer reach it at the first message, for every allowance |

## Left out

- HTTP, TLS, headers and the telling of a success status or an event-stream type: a request ends in one of six ways (`Dial`), with the time it took.
- JSON: the decoder is an arbitrary function from text to a parsed chunk or an error; the logic around it is modelled.
- Throughput.EvalThroughput: the average is an exact real, because the guard's promises are not about rounding of doubles; the rate in its record is not truncated to an integer.
- AttemptClock.ClockSafety: takes armed timers, the throughput tick among them, to fire on time and handling to take no time (`Prompt`), because the runtime's scheduling is not part of this model.
- TurnTime.TurnTimeBounded: likewise, with the header wait and the body read ending at their time limits.
- TurnTime.TurnTimeTight: for a stall window of nothing or of a second at least, as the settings only give whole seconds.
- Which ready arm `select!` picks: any; the wake-ups are arbitrary.
- TurnFacts.TraceAgrees: counts of records offered to the bus; what survives a full queue is the subject of `BusSystem`.
- BusSystem.NoDropUnreported: assumes that nothing runs between a refused send and its count, as on the one-thread runtime; without that it is false.
- Pool.AllReturned: for turns that run to completion; the bucket return is an ordinary call, so a turn dropped in mid-await is not covered.
- ChatFacts.HistoryWellFormed: after the panic at chat2/src/main.rs:100 there is no further prompt; the user's message is then left without an answer.
- Session.RunProgram: after the last turn the writer is given the time it needs; the program stops waiting after five seconds.
- Memory ordering: the atomics are taken to be sequentially consistent.
- Widths of counters other than the bucket counter, among them the attempt number when the allowance is the largest 32-bit number.
- Enqueue-latency values, wall-clock stamps, the gauge of active streams, hexadecimal prefixes, the wording of messages and faults.
- The terminal, capture files, configuration, environment files, the command line and the unused `SseParser::finish`.
