/** Completion semantics (chat2/src/machine.rs): the verdict as a function of the events seen, in order. */
module Machine {
  import opened Text
  import opened Vocabulary

  datatype EndCause = StreamEnded | HandlerAbort

  // ---- what a sequence of events amounts to ----

  function ContentOf(evs: seq<DriverEvent>): Bytes {
    if evs == [] then []
    else ContentOf(evs[..|evs| - 1]) + (match evs[|evs| - 1] { case TextDelta(t) => t case _ => [] })
  }

  function FirstFinish(evs: seq<DriverEvent>): Option<Bytes> {
    if evs == [] then None
    else
      match FirstFinish(evs[..|evs| - 1])
      case Some(r) => Some(r)
      case None => match evs[|evs| - 1] { case Finish(r) => Some(r) case _ => None }
  }

  function LastUsage(evs: seq<DriverEvent>): Option<TokenUsage> {
    if evs == [] then None
    else match evs[|evs| - 1] { case UsageReport(u) => Some(u) case _ => LastUsage(evs[..|evs| - 1]) }
  }

  function AnomaliesOf(evs: seq<DriverEvent>): seq<Anomaly> {
    if evs == [] then []
    else
      AnomaliesOf(evs[..|evs| - 1]) +
      match FirstFinish(evs[..|evs| - 1])
      case None => []
      case Some(kept) =>
        match evs[|evs| - 1]
        case TextDelta(_) => [LateText]
        case Finish(r) => [SecondFinish(r, kept)]
        case _ => []
  }

  function Verdict(evs: seq<DriverEvent>, cause: EndCause): TurnResolution {
    var chars := CharCount(ContentOf(evs));
    if cause == HandlerAbort then Faulted(Aborted(chars))
    else
      match FirstFinish(evs)
      case Some(r) => Resolved(ChatOutcome(ContentOf(evs), r, LastUsage(evs)))
      case None => if chars == 0 then Faulted(EmptyStream) else Faulted(Truncated(chars))
  }

  // ---- what those amount to, without recursion ----

  lemma {:induction false} ContentJoin(a: seq<DriverEvent>, b: seq<DriverEvent>)
    ensures ContentOf(a + b) == ContentOf(a) + ContentOf(b)
    decreases |b|
  {
    if b == [] {
      assert a + b == a;
    } else {
      assert (a + b)[..|a + b| - 1] == a + b[..|b| - 1];
      ContentJoin(a, b[..|b| - 1]);
    }
  }

  lemma {:induction false} FirstFinishIsFirst(evs: seq<DriverEvent>)
    ensures FirstFinish(evs).None? <==> forall i | 0 <= i < |evs| :: !evs[i].Finish?
    ensures FirstFinish(evs).Some? ==>
              exists i | 0 <= i < |evs| :: evs[i] == Finish(FirstFinish(evs).value)
                  && forall j | 0 <= j < i :: !evs[j].Finish?
    decreases |evs|
  {
    if evs != [] {
      var init := evs[..|evs| - 1];
      FirstFinishIsFirst(init);
      assert forall i | 0 <= i < |init| :: init[i] == evs[i];
      if FirstFinish(init).Some? {
        var i :| 0 <= i < |init| && init[i] == Finish(FirstFinish(init).value)
            && forall j | 0 <= j < i :: !init[j].Finish?;
        assert evs[i] == Finish(FirstFinish(evs).value);
      }
    }
  }

  lemma {:induction false} LastUsageIsLast(evs: seq<DriverEvent>)
    ensures LastUsage(evs).None? <==> forall i | 0 <= i < |evs| :: !evs[i].UsageReport?
    ensures LastUsage(evs).Some? ==>
              exists i | 0 <= i < |evs| :: evs[i] == UsageReport(LastUsage(evs).value)
                  && forall j | i < j < |evs| :: !evs[j].UsageReport?
    decreases |evs|
  {
    if evs != [] && !evs[|evs| - 1].UsageReport? {
      var init := evs[..|evs| - 1];
      LastUsageIsLast(init);
      assert forall i | 0 <= i < |init| :: init[i] == evs[i];
      if LastUsage(init).Some? {
        var i :| 0 <= i < |init| && init[i] == UsageReport(LastUsage(init).value)
            && forall j | i < j < |init| :: !init[j].UsageReport?;
        assert evs[i] == UsageReport(LastUsage(evs).value);
        assert forall j | i < j < |evs| :: !evs[j].UsageReport?;
      }
    }
  }

  /** Nothing is flagged exactly when neither text nor a finish follows a finish. */
  lemma {:induction false} CleanIff(evs: seq<DriverEvent>)
    ensures AnomaliesOf(evs) == [] <==>
            forall i, j | 0 <= i < j < |evs| && evs[i].Finish? :: !evs[j].TextDelta? && !evs[j].Finish?
    decreases |evs|
  {
    if evs != [] {
      var init := evs[..|evs| - 1];
      CleanIff(init);
      FirstFinishIsFirst(init);
      assert forall i | 0 <= i < |init| :: init[i] == evs[i];
    }
  }

  predicate HasText(evs: seq<DriverEvent>) { exists i | 0 <= i < |evs| :: evs[i].TextDelta? }

  predicate WellFormedTexts(evs: seq<DriverEvent>) {
    forall i | 0 <= i < |evs| && evs[i].TextDelta? :: WellFormed(evs[i].text) && evs[i].text != []
  }

  lemma {:induction false} SomeContentIff(evs: seq<DriverEvent>)
    requires WellFormedTexts(evs)
    ensures WellFormed(ContentOf(evs)) && (ContentOf(evs) != [] <==> HasText(evs))
    decreases |evs|
  {
    if evs != [] {
      var init := evs[..|evs| - 1];
      assert forall i | 0 <= i < |init| :: init[i] == evs[i];
      SomeContentIff(init);
      if evs[|evs| - 1].TextDelta? {
        JoinWellFormed(ContentOf(init), evs[|evs| - 1].text);
      } else {
        assert ContentOf(evs) == ContentOf(init);
        assert HasText(evs) <==> HasText(init);
      }
    }
  }

  /** The characters of all the text. */
  function TextChars(evs: seq<DriverEvent>): nat {
    if evs == [] then 0 else (match evs[0] { case TextDelta(t) => CharCount(t) case _ => 0 }) + TextChars(evs[1..])
  }

  lemma {:induction false} CharsJoin(a: Bytes, b: Bytes)
    ensures CharCount(a + b) == CharCount(a) + CharCount(b)
    decreases |a|
  {
    if a == [] {
      assert a + b == b;
    } else {
      assert (a + b)[1..] == a[1..] + b;
      CharsJoin(a[1..], b);
    }
  }

  lemma {:induction false} ContentChars(evs: seq<DriverEvent>)
    ensures CharCount(ContentOf(evs)) == TextChars(evs)
    decreases |evs|
  {
    hide CharCount;
    if evs == [] {
      NoChars();
    } else {
      ContentJoin([evs[0]], evs[1..]);
      assert evs == [evs[0]] + evs[1..];
      ContentOne(evs[0]);
      CharsJoin(ContentOf([evs[0]]), ContentOf(evs[1..]));
      ContentChars(evs[1..]);
      NoChars();
    }
  }

  lemma NoChars()
    ensures CharCount([]) == 0
  {
  }

  lemma {:induction false} ContentOne(ev: DriverEvent)
    ensures ContentOf([ev]) == if ev.TextDelta? then ev.text else []
  {
    assert [ev][..0] == [];
  }

  /** An outcome is issued exactly when a finish reason was seen and the handler did not abort; otherwise the
      fault tells an abort, an empty stream and a cut-off answer apart, with the number of characters received. `[DONE]`
      and token usage decide nothing. */
  lemma {:induction false} VerdictIff(evs: seq<DriverEvent>, cause: EndCause)
    requires WellFormedTexts(evs)
    ensures Verdict(evs, cause).Resolved? <==> cause == StreamEnded && exists i | 0 <= i < |evs| :: evs[i].Finish?
    ensures cause == HandlerAbort ==> Verdict(evs, cause) == Faulted(Aborted(TextChars(evs)))
    ensures Verdict(evs, cause) == Faulted(EmptyStream) <==>
            cause == StreamEnded && forall i | 0 <= i < |evs| :: !evs[i].Finish? && !evs[i].TextDelta?
    ensures forall n: nat :: Verdict(evs, cause) == Faulted(Truncated(n)) <==>
              cause == StreamEnded && n == TextChars(evs) && HasText(evs)
              && forall i | 0 <= i < |evs| :: !evs[i].Finish?
  {
    hide TextChars;
    FirstFinishIsFirst(evs);
    SomeContentIff(evs);
    NoCharsMeansEmpty(ContentOf(evs));
    ContentChars(evs);
  }

  /** What is wrong with events that come after a finish with reason `kept`. */
  function Late(evs: seq<DriverEvent>, kept: Bytes): seq<Anomaly> {
    if evs == [] then []
    else
      (match evs[0]
       case TextDelta(_) => [LateText]
       case Finish(r) => [SecondFinish(r, kept)]
       case _ => []) + Late(evs[1..], kept)
  }

  lemma {:induction false} LateSnoc(evs: seq<DriverEvent>, kept: Bytes, ev: DriverEvent)
    ensures Late(evs + [ev], kept) == Late(evs, kept) + Late([ev], kept)
    decreases |evs|
  {
    if evs == [] {
      assert evs + [ev] == [ev];
    } else {
      assert (evs + [ev])[1..] == evs[1..] + [ev];
      LateSnoc(evs[1..], kept, ev);
    }
  }

  lemma {:induction false} LateOneMore(evs: seq<DriverEvent>, i: nat, ev: DriverEvent)
    requires i < |evs| && evs[i].Finish?
    ensures Late((evs + [ev])[i + 1..], evs[i].reason) == Late(evs[i + 1..], evs[i].reason) + Late([ev], evs[i].reason)
  {
    hide Late;
    assert (evs + [ev])[i + 1..] == evs[i + 1..] + [ev];
    LateSnoc(evs[i + 1..], evs[i].reason, ev);
  }

  lemma {:induction false} LateOne(ev: DriverEvent, kept: Bytes)
    ensures Late([], kept) == []
    ensures Late([ev], kept) == match ev { case TextDelta(_) => [LateText]
                                           case Finish(r) => [SecondFinish(r, kept)]
                                           case _ => [] }
  {
    assert [ev][1..] == [];
  }

  /** The anomalies are one for each text and each finish after the first finish, in order; there are none before it. */
  lemma {:induction false} AnomaliesAre(evs: seq<DriverEvent>, i: nat)
    requires i <= |evs| && (forall j | 0 <= j < i :: !evs[j].Finish?) && (i < |evs| ==> evs[i].Finish?)
    ensures AnomaliesOf(evs) == if i == |evs| then [] else Late(evs[i + 1..], evs[i].reason)
    ensures FirstFinish(evs) == if i == |evs| then None else Some(evs[i].reason)
    decreases |evs|
  {
    hide Late, ContentOf, LastUsage, AnomaliesOf, FirstFinish;
    if evs == [] {
      NoAnomalies();
    } else {
      var init, last := evs[..|evs| - 1], evs[|evs| - 1];
      assert forall j | 0 <= j < |init| :: init[j] == evs[j];
      assert evs == init + [last];
      AnomaliesAre(init, if i == |evs| then |init| else i);
      OneMore(init, last);
      if i < |init| {
        LateOneMore(init, i, last);
        LateOne(last, evs[i].reason);
      } else if i == |init| {
        assert evs[i + 1..] == [];
        LateOne(last, last.reason);
      }
    }
  }

  lemma NoAnomalies()
    ensures AnomaliesOf([]) == [] && FirstFinish([]) == None
  {
  }

  /** One more event. */
  lemma {:induction false} OneMore(evs: seq<DriverEvent>, ev: DriverEvent)
    ensures var more := evs + [ev];
            && ContentOf(more) == (if ev.TextDelta? then ContentOf(evs) + ev.text else ContentOf(evs))
            && FirstFinish(more) == (if ev.Finish? && FirstFinish(evs).None? then Some(ev.reason) else FirstFinish(evs))
            && LastUsage(more) == (if ev.UsageReport? then Some(ev.usage) else LastUsage(evs))
            && AnomaliesOf(more) == AnomaliesOf(evs) +
                 (if FirstFinish(evs).None? then []
                  else match ev { case TextDelta(_) => [LateText]
                                  case Finish(r) => [SecondFinish(r, FirstFinish(evs).value)]
                                  case _ => [] })
  {
    assert (evs + [ev])[..|evs|] == evs;
  }

  class StreamMachine {
    var content: Bytes
    var finishReason: Option<Bytes>
    var usage: Option<TokenUsage>
    var sawDone: bool
    var anomalies: seq<Anomaly>
    ghost var fed: seq<DriverEvent>

    ghost predicate Valid()
      reads this
    {
      && content == ContentOf(fed)
      && finishReason == FirstFinish(fed)
      && usage == LastUsage(fed)
      && (sawDone <==> Done in fed)
      && anomalies == AnomaliesOf(fed)
    }

    constructor ()
      ensures Valid() && fed == []
    {
      content, finishReason, usage, sawDone, anomalies, fed := [], None, None, false, [], [];
    }

    method Feed(ev: DriverEvent)
      requires Valid()
      modifies this
      ensures Valid() && fed == old(fed) + [ev]
    {
      hide ContentOf, FirstFinish, LastUsage, AnomaliesOf;
      OneMore(fed, ev);
      fed := fed + [ev];
      match ev {
        case TextDelta(t) =>
          if finishReason.Some? {
            anomalies := anomalies + [LateText];
          }
          content := content + t;
        case Finish(r) =>
          if finishReason.Some? {
            anomalies := anomalies + [SecondFinish(r, finishReason.value)];
          } else {
            finishReason := Some(r);
          }
        case UsageReport(u) =>
          usage := Some(u);
        case Done =>
          sawDone := true;
      }
    }

    method Finalize(cause: EndCause) returns (r: TurnResolution)
      requires Valid()
      ensures r == Verdict(fed, cause)
    {
      var partialChars := CharCount(content);
      if cause == HandlerAbort {
        return Faulted(Aborted(partialChars));
      }
      match finishReason {
        case Some(reason) => return Resolved(ChatOutcome(content, reason, usage));
        case None => return if partialChars == 0 then Faulted(EmptyStream) else Faulted(Truncated(partialChars));
      }
    }
  }
}
