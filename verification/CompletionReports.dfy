/** What the end of a command reports, in whatever words, and what the server makes of it. */
module CompletionReports {
  import opened Protocol
  import opened DeliveryLedger
  import Clarification

  /** A failure that must not be tried again, because nobody knows what became of the work. */
  predicate TellsUnknown(event: Event) {
    event.SessionFailed? && !event.recoverable && Clarification.IsUnknownFailure(event.reason)
  }

  /** `es` carries the events of the runtime one by one in their order, under the next numbers of the
      session, and after them exactly when the outcome is unknown one more that tells so. */
  predicate Reports(es: seq<EventEnvelope>, c: Name, s: Name, base: nat, events: seq<Event>, outcome: Outcome,
                    now: string)
  {
    && |es| == |events| + (if outcome.Unknown? then 1 else 0)
    && (forall i | 0 <= i < |es| :: es[i].sessionId == s && es[i].eventSeq == base + 1 + i && es[i].sentAt == now)
    && (forall i | 0 <= i < |events| :: es[i].eventId == RuntimeEvent(c, i + 1) && es[i].event == events[i])
    && (outcome.Unknown? ==>
          && es[|events|].eventId == UnknownEvent(c) && TellsUnknown(es[|events|].event)
          && Clarification.Contains(es[|events|].event.reason, outcome.reason))
  }

  lemma EmittedReports(c: Name, s: Name, base: nat, events: seq<Event>, outcome: Outcome, now: string)
    ensures Reports(Emitted(c, s, base, events, outcome, now), c, s, base, events, outcome, now)
  {
    if outcome.Unknown? {
      var text := UnknownReason(outcome.reason);
      Clarification.UnknownReasonRecognised(outcome.reason);
      var k := |UNKNOWN_MARKER| + 1;
      assert text[k..k + |outcome.reason|] == outcome.reason;
      assert Clarification.OccursAt(text, outcome.reason, k);
    }
  }

  /** The last event of such a report, if the server accepts it, ends the run for good. */
  lemma UnknownNeverRetried(es: seq<EventEnvelope>, c: Name, s: Name, base: nat, events: seq<Event>,
                            outcome: Outcome, now: string, r: Clarification.Run, ownerValid: bool, retryAt: nat,
                            steps: seq<Clarification.Step>)
    requires Reports(es, c, s, base, events, outcome, now) && outcome.Unknown? && Clarification.Lifecycle(r)
    requires Clarification.Rejection(r, es[|es| - 1].event).None?
    ensures
      var next := Clarification.Apply(r, Clarification.Projecting(es[|es| - 1].event, ownerValid, retryAt));
      next.state == Clarification.Failed && Clarification.History(next, steps) == next
  {
    Clarification.UnknownOutcomeNeverRetried(r, es[|es| - 1].event, ownerValid, retryAt, steps);
  }
}
