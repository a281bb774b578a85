/** What two events with one id do to the journal and to the server. */
module ClashOutcome {
  import opened Protocol
  import opened DeliveryLedger
  import opened JournalFile
  import opened ServerEvents
  import opened Delivery
  import opened EndToEnd
  import LedgerInvariants
  import FileEvents
  import EventNames

  function AckOf(e: EventEnvelope, status: EventAckStatus, reason: Option<string>): EventAck {
    EventAck(e.eventId, e.sessionId, e.eventSeq, status, reason)
  }

  /* ---- In the journal ---- */

  /** The appended event keeps its record and the command's event gets another: two records with one id
      at two places. An acknowledgement of the second is refused, whatever it says. */
  lemma TwoRecords(f: File, l: Ledger, a: EventEnvelope, es: seq<EventEnvelope>, i: nat,
                   status: EventAckStatus, reason: Option<string>)
    requires EventsRepresent(f.events, f.eventTombstones, l) && a.eventId !in l.events
    requires i < |es| && es[i].eventId == a.eventId
    requires es[i].sessionId != a.sessionId || es[i].eventSeq != a.eventSeq
    ensures var g, m := FileEvents.Pushed(FileEvents.Pushed(f, [a]), es), |f.events|;
      && g.events[m] == FileEvents.NewEvent(a) && g.events[m + 1 + i] == FileEvents.NewEvent(es[i])
      && FileEvents.FirstHolds(g.events, a.eventId, m)
      && FileEvents.Disowned(g.events, AckOf(es[i], status, reason))
  {
    var g, m := FileEvents.Pushed(FileEvents.Pushed(f, [a]), es), |f.events|;
    forall k | 0 <= k < m ensures g.events[k].envelope.eventId != a.eventId {
      assert EventFits(f.events[k], l) && g.events[k] == f.events[k];
    }
    FileEvents.DisownedFirst(g.events, AckOf(es[i], status, reason), m);
  }

  /** So it goes for every command under way: an event appended under the id of the first one it will
      report, and the end of that command. */
  lemma AppendCollides(f: File, l: Ledger, c: Name, s: Name, event: Event, events: seq<Event>, outcome: Outcome,
                       now: string, status: EventAckStatus, reason: Option<string>)
    requires Represents(f, l) && LedgerInvariants.EventBase(l) && RuntimeEvent(c, 1) !in l.events && |events| > 0
    requires c in l.commands && l.commands[c].status.DispatchStarted?
    ensures var a := EventEnvelope(RuntimeEvent(c, 1), s, LastEventSeq(l, s) + 1, now, event);
      var m := l.(events := l.events[a.eventId := EventEntry(a, None)]);
      var es := FinishEvents(m, c, outcome, events, now);
      var g, k := FileEvents.Pushed(FileEvents.Pushed(f, [a]), es), |f.events|;
      && Represents(FileEvents.Pushed(f, [a]), m)
      && g.events[k] == FileEvents.NewEvent(a) && g.events[k + 1] == FileEvents.NewEvent(es[0])
      && es[0].eventId == a.eventId && es[0] != a
      && FileEvents.Disowned(g.events, AckOf(es[0], status, reason))
  {
    var a := EventEnvelope(RuntimeEvent(c, 1), s, LastEventSeq(l, s) + 1, now, event);
    var m := l.(events := l.events[a.eventId := EventEntry(a, None)]);
    assert Represents(FileEvents.Pushed(f, [a]), m) by {
      LedgerInvariants.AddOne(l, a);
      FileEvents.PushedOne(f, [], a);
      FileEvents.PushEvent(f, l, a);
    }
    assert s == l.commands[c].envelope.sessionId ==> LastEventSeq(m, s) == a.eventSeq by {
      LedgerInvariants.AddOne(l, a);
      LedgerInvariants.AddKeeps(l, a);
    }
    TwoRecords(f, l, a, FinishEvents(m, c, outcome, events, now), 0, status, reason);
  }

  /* ---- At the server ---- */

  /** Once the first of two events with one id is recorded, the second is an integrity error. */
  lemma SecondRefused(sv: Server, a: EventEnvelope, b: EventEnvelope, status: EventAckStatus, reason: Option<string>)
    requires a.eventId in sv.receipts && sv.receipts[a.eventId].envelope == a
    requires b.eventId == a.eventId && b != a && b.eventSeq >= 1
    requires b.sessionId in sv.handled && ValidDecision(status, reason)
    ensures Record(sv, b, status, reason) == (sv, IntegrityError)
  {
  }

  /** The only event that is ever sent for the place of `b` is `b`. */
  predicate OnlyAt(es: seq<EventEnvelope>, b: EventEnvelope) {
    forall e | e in es && e.sessionId == b.sessionId && e.eventSeq == b.eventSeq :: e == b
  }

  lemma StuckStep(sv: Server, a: EventEnvelope, b: EventEnvelope, e: EventEnvelope, status: EventAckStatus,
                  reason: Option<string>)
    requires ServerInv(sv) && a.eventId in sv.receipts && sv.receipts[a.eventId].envelope == a
    requires b.eventId == a.eventId && Watermark(sv, b.sessionId) < b.eventSeq
    requires e.sessionId == b.sessionId && e.eventSeq == b.eventSeq ==> e == b
    ensures var r := Record(sv, e, status, reason).0;
      && ServerInv(r) && a.eventId in r.receipts && r.receipts[a.eventId] == sv.receipts[a.eventId]
      && Watermark(r, b.sessionId) < b.eventSeq
  {
    var (next, answer) := Record(sv, e, status, reason);
    RecordEffect(sv, e, status, reason);
    EffectKeeps(sv, next, e, answer);
    StuckAnswer(sv, next, a, b, e, answer);
  }

  lemma StuckAnswer(sv: Server, next: Server, a: EventEnvelope, b: EventEnvelope, e: EventEnvelope, answer: Answer)
    requires Effect(sv, next, e, answer) && a.eventId in sv.receipts
    requires forall s :: Watermark(next, s) == Watermark(sv, s) + if Fresh(answer) && s == e.sessionId then 1 else 0
    requires b.eventId == a.eventId && Watermark(sv, b.sessionId) < b.eventSeq
    requires e.sessionId == b.sessionId && e.eventSeq == b.eventSeq ==> e == b
    ensures a.eventId in next.receipts && next.receipts[a.eventId] == sv.receipts[a.eventId]
    ensures Watermark(next, b.sessionId) < b.eventSeq
  {
  }

  /** From then on nothing gets past the second: whatever events are delivered, in whatever order and
      however often, its session stays below its number. */
  lemma {:induction false} SessionStuck(sv: Server, a: EventEnvelope, b: EventEnvelope, es: seq<EventEnvelope>,
                                        decide: Policy)
    requires ServerInv(sv) && a.eventId in sv.receipts && sv.receipts[a.eventId].envelope == a
    requires b.eventId == a.eventId && Watermark(sv, b.sessionId) < b.eventSeq && OnlyAt(es, b)
    ensures var r := RecordAll(sv, es, decide);
      && ServerInv(r) && a.eventId in r.receipts && r.receipts[a.eventId] == sv.receipts[a.eventId]
      && Watermark(r, b.sessionId) < b.eventSeq
  {
    if es != [] {
      var front, e := es[..|es| - 1], es[|es| - 1];
      SessionStuck(sv, a, b, front, decide);
      assert e in es;
      StuckStep(RecordAll(sv, front, decide), a, b, e, decide(e).0, decide(e).1);
    }
  }
}
