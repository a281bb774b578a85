/** The server's event ledger: one receipt per event, deduplicated by identity, taken only in
    order, with a watermark per session. */
module ServerEvents {
  import opened Protocol
  import opened DeliveryLedger
  import opened EventCursor

  datatype Receipt = Receipt(envelope: EventEnvelope, status: EventAckStatus, reason: Option<string>)

  /** `handled` holds, for each known session, the event sequences already decided. */
  datatype Server = Server(handled: map<Name, set<nat>>, receipts: map<EventId, Receipt>)

  datatype Answer =
    | Recorded(receipt: Receipt, duplicate: bool)
    | IntegrityError
    | SequenceGap(expected: nat, received: nat)
    | UnknownSession

  function AtLeast(a: set<nat>, n: nat): set<nat> {
    set k | k in a && k >= n
  }

  /** The first sequence from `n` on that is not in the set. */
  function FirstGap(a: set<nat>, n: nat): (g: nat)
    ensures g >= n && g !in a && forall k | n <= k < g :: k in a
    decreases AtLeast(a, n)
  {
    if n in a then
      assert n in AtLeast(a, n) && n !in AtLeast(a, n + 1);
      FirstGap(a, n + 1)
    else n
  }

  predicate ValidDecision(status: EventAckStatus, reason: Option<string>) {
    match status
    case Accepted => reason.None?
    case Rejected => reason.Some? && reason.value != ""
  }

  /** One event frame with the decision taken about it. Only the next sequence of a session adds
      anything; a repeated frame gets its first receipt again. */
  function Record(sv: Server, e: EventEnvelope, status: EventAckStatus, reason: Option<string>): (Server, Answer) {
    if e.eventSeq == 0 || !ValidDecision(status, reason) then (sv, IntegrityError)
    else if e.sessionId !in sv.handled then (sv, UnknownSession)
    else if e.eventId in sv.receipts then
      (sv, if sv.receipts[e.eventId].envelope == e then Recorded(sv.receipts[e.eventId], true) else IntegrityError)
    else if SequenceTaken(sv, e) then (sv, IntegrityError)
    else
      var expected := FirstGap(sv.handled[e.sessionId], 1);
      if e.eventSeq > expected then (sv, SequenceGap(expected, e.eventSeq))
      else if e.eventSeq < expected then (sv, IntegrityError)
      else
        var receipt := Receipt(e, status, reason);
        (Server(sv.handled[e.sessionId := sv.handled[e.sessionId] + {e.eventSeq}], sv.receipts[e.eventId := receipt]),
         Recorded(receipt, false))
  }

  predicate SequenceTaken(sv: Server, e: EventEnvelope) {
    exists id | id in sv.receipts ::
      sv.receipts[id].envelope.sessionId == e.sessionId && sv.receipts[id].envelope.eventSeq == e.eventSeq
  }

  lemma CursorGap(through: nat, sparse: seq<nat>, expected: nat)
    requires Canonical(through, sparse) && FirstMissing(through, sparse, expected)
    ensures expected == FirstGap(AckSet(through, sparse), 1)
  {
    assert expected !in AckSet(through, sparse);
    forall k | 1 <= k < expected ensures k in AckSet(through, sparse) {
    }
  }

  datatype Cursor = Cursor(through: nat, sparse: seq<nat>)

  class EventStore {
    var cursors: map<Name, Cursor>
    var receipts: map<EventId, Receipt>

    ghost predicate Valid()
      reads this
    {
      forall s | s in cursors ::
        Canonical(cursors[s].through, cursors[s].sparse) && Tight(cursors[s].through, cursors[s].sparse)
    }

    ghost function State(): Server
      reads this
    {
      Server(map s | s in cursors :: AckSet(cursors[s].through, cursors[s].sparse), receipts)
    }

    constructor ()
      ensures Valid() && State() == Server(map[], map[])
    {
      cursors, receipts := map[], map[];
    }

    method AddSession(s: Name)
      requires Valid()
      modifies this
      ensures Valid()
      ensures State() == if s in old(State()).handled then old(State())
                         else old(State()).(handled := old(State()).handled[s := {}])
    {
      if s !in cursors {
        cursors := cursors[s := Cursor(0, [])];
        assert AckSet(0, []) == {};
        assert State().handled == old(State()).handled[s := {}];
      }
    }

    /** Decide, deduplicate, guard the order, record, and move the watermark. */
    method RecordEvent(e: EventEnvelope, status: EventAckStatus, reason: Option<string>) returns (answer: Answer)
      requires Valid()
      modifies this
      ensures Valid() && (State(), answer) == Record(old(State()), e, status, reason)
      ensures answer.Recorded? ==>
        if answer.duplicate then e.eventId in old(receipts) && answer.receipt == old(receipts)[e.eventId]
        else e.eventId !in old(receipts) && answer.receipt == Receipt(e, status, reason)
      ensures receipts == if answer.Recorded? && !answer.duplicate
                          then old(receipts)[e.eventId := Receipt(e, status, reason)] else old(receipts)
    {
      if e.eventSeq == 0 || !ValidDecision(status, reason) {
        return IntegrityError;
      }
      if e.sessionId !in cursors {
        return UnknownSession;
      }
      if e.eventId in receipts {
        var row := receipts[e.eventId];
        return if row.envelope == e then Recorded(row, true) else IntegrityError;
      }
      if exists id | id in receipts ::
           receipts[id].envelope.sessionId == e.sessionId && receipts[id].envelope.eventSeq == e.eventSeq {
        return IntegrityError;
      }
      answer := Insert(e, Receipt(e, status, reason));
    }

    method Insert(e: EventEnvelope, receipt: Receipt) returns (answer: Answer)
      requires Valid() && e.sessionId in cursors && e.eventId !in receipts && !SequenceTaken(State(), e)
      requires e.eventSeq >= 1 && ValidDecision(receipt.status, receipt.reason) && receipt.envelope == e
      modifies this
      ensures Valid() && (State(), answer) == Record(old(State()), e, receipt.status, receipt.reason)
      ensures answer.Recorded? ==> answer == Recorded(receipt, false)
      ensures receipts == if answer.Recorded? then old(receipts)[e.eventId := receipt] else old(receipts)
    {
      var cursor := cursors[e.sessionId];
      var expected := ExpectedSequence(cursor.through, cursor.sparse);
      CursorGap(cursor.through, cursor.sparse, expected);
      if e.eventSeq > expected {
        return SequenceGap(expected, e.eventSeq);
      }
      if e.eventSeq <= cursor.through {
        return IntegrityError;
      }
      receipts := receipts[e.eventId := receipt];
      var t, sp := AdvanceGeneric(cursor.through, cursor.sparse, e.eventSeq);
      cursors := cursors[e.sessionId := Cursor(t, sp)];
      assert State().handled == old(State()).handled[e.sessionId := old(State()).handled[e.sessionId] + {e.eventSeq}];
      return Recorded(receipt, false);
    }
  }
}
