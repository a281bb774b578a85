/** Event delivery end to end: a daemon with its journal in memory and on disk, a network that may
    lose, repeat, delay and reorder every frame, and the server's event ledger. */
module Delivery {
  import opened Protocol
  import opened DeliveryLedger
  import opened DurableStore
  import opened ServerEvents
  import opened JournalFile
  import Dispatch
  import LedgerInvariants

  /** Frames stay in the three sets for ever, so a step may deliver any frame ever sent, again and
      in any order; a frame that is never picked is lost. `log` lists what the server recorded. */
  datatype System = System(
    daemon: Dispatch.Daemon,
    server: Server,
    log: seq<EventEnvelope>,
    events: set<EventEnvelope>,
    acks: set<EventAck>,
    snapshots: set<seq<SessionReconcileState>>)

  const START := System(Dispatch.FRESH, Server(map[], map[]), [], {}, {}, {})

  datatype Action =
    | Daemon(action: Dispatch.Action)
    | Send(id: EventId)
    | SendAgain(id: EventId, now: string)
    | Register(session: Name)
    | Receive(event: EventEnvelope, status: EventAckStatus, reason: Option<string>)
    | Report(snapshot: seq<SessionReconcileState>)

  function Handled(sv: Server, s: Name): set<nat> {
    if s in sv.handled then sv.handled[s] else {}
  }

  /** A snapshot states what the server has handled, for sessions it knows. */
  predicate Reports(sv: Server, rs: seq<SessionReconcileState>) {
    && ValidSnapshot(rs)
    && forall r | r in rs ::
         r.sessionId in sv.handled && AckSet(r.eventAckThrough, r.eventAckSparse) == sv.handled[r.sessionId]
  }

  /** Acknowledgements and snapshots come off the network; appended ids do not anticipate the
      journal's own. */
  predicate Allowed(sys: System, a: Dispatch.Action) {
    match a
    case Acknowledging(ack, _, _) => ack in sys.acks
    case Reconciling(rs, _) => rs in sys.snapshots
    case Appending(id, _, _, _, _) => !LedgerInvariants.Anticipates(Memory(sys), id)
    case _ => true
  }

  function Memory(sys: System): Ledger { sys.daemon.store.memory }

  function Disk(sys: System): Ledger { sys.daemon.store.disk }

  function AckFor(r: Receipt): EventAck {
    EventAck(r.envelope.eventId, r.envelope.sessionId, r.envelope.eventSeq, r.status, r.reason)
  }

  function Logged(log: seq<EventEnvelope>, e: EventEnvelope, answer: Answer): seq<EventEnvelope> {
    if answer.Recorded? && !answer.duplicate then log + [e] else log
  }

  ghost function Step(sys: System, a: Action, limit: nat): System {
    match a
    case Daemon(action) =>
      if Allowed(sys, action) then sys.(daemon := Dispatch.Step(sys.daemon, action, limit)) else sys
    case Send(id) =>
      if id in Memory(sys).events then sys.(events := sys.events + {Memory(sys).events[id].envelope}) else sys
    case SendAgain(id, now) =>
      if id in Memory(sys).events && Acked(Memory(sys), Memory(sys).events[id].envelope)
      then sys.(events := sys.events + {Memory(sys).events[id].envelope.(sentAt := now)}) else sys
    case Register(s) =>
      if s in sys.server.handled then sys
      else sys.(server := sys.server.(handled := sys.server.handled[s := {}]))
    case Receive(e, status, reason) =>
      if e !in sys.events then sys
      else
        var (server, answer) := Record(sys.server, e, status, reason);
        sys.(server := server,
             log := Logged(sys.log, e, answer),
             acks := if answer.Recorded? then sys.acks + {AckFor(answer.receipt)} else sys.acks)
    case Report(rs) =>
      if Reports(sys.server, rs) then sys.(snapshots := sys.snapshots + {rs}) else sys
  }

  ghost function Run(actions: seq<Action>, limit: nat): System {
    if actions == [] then START else Step(Run(actions[..|actions| - 1], limit), actions[|actions| - 1], limit)
  }

  predicate Acked(l: Ledger, e: EventEnvelope) {
    e.eventSeq in SessionOf(l, e.sessionId).acked
  }

  /* ---- The server's side ---- */

  function Watermark(sv: Server, s: Name): nat { FirstGap(Handled(sv, s), 1) - 1 }

  ghost predicate Contiguous(sv: Server) {
    forall s | s in sv.handled :: sv.handled[s] == Upto(Watermark(sv, s))
  }

  predicate SamePlace(receipts: map<EventId, Receipt>, id: EventId, jd: EventId) {
    && id in receipts && jd in receipts
    && receipts[id].envelope.sessionId == receipts[jd].envelope.sessionId
    && receipts[id].envelope.eventSeq == receipts[jd].envelope.eventSeq
  }

  /** Every receipt is for a handled sequence, and no two are for the same one. */
  ghost predicate ReceiptsDistinct(sv: Server) {
    && (forall id | id in sv.receipts ::
          && sv.receipts[id].envelope.eventId == id
          && sv.receipts[id].envelope.eventSeq in Handled(sv, sv.receipts[id].envelope.sessionId))
    && (forall id, jd :: SamePlace(sv.receipts, id, jd) ==> id == jd)
  }

  /** Every handled sequence has a receipt. */
  ghost predicate Receipted(sv: Server) {
    forall s, n | n in Handled(sv, s) :: HasReceipt(sv, s, n)
  }

  ghost predicate ServerInv(sv: Server) {
    Contiguous(sv) && ReceiptsDistinct(sv) && Receipted(sv)
  }

  predicate HasReceipt(sv: Server, s: Name, n: nat) {
    exists id | id in sv.receipts ::
      sv.receipts[id].envelope.sessionId == s && sv.receipts[id].envelope.eventSeq == n
  }

  function SessionLog(log: seq<EventEnvelope>, s: Name): seq<EventEnvelope> {
    if log == [] then []
    else SessionLog(log[..|log| - 1], s) + if log[|log| - 1].sessionId == s then [log[|log| - 1]] else []
  }

  /** The log of a session is its recorded events, once each, in the order 1, 2, 3, ... */
  ghost predicate LogExact(sv: Server, log: seq<EventEnvelope>, s: Name) {
    && |SessionLog(log, s)| == Watermark(sv, s)
    && forall i | 0 <= i < |SessionLog(log, s)| :: Entry(sv, s, SessionLog(log, s)[i], i + 1)
  }

  predicate Entry(sv: Server, s: Name, e: EventEnvelope, n: nat) {
    e.sessionId == s && e.eventSeq == n && e.eventId in sv.receipts && sv.receipts[e.eventId].envelope == e
  }

  lemma UptoGap(m: nat)
    ensures FirstGap(Upto(m), 1) == m + 1
  {
    var next := m + 1;
    assert next !in Upto(m);
  }

  lemma UptoNext(m: nat)
    ensures Upto(m) + {m + 1} == Upto(m + 1)
  {
  }

  predicate Fresh(answer: Answer) {
    answer.Recorded? && !answer.duplicate
  }

  /** What one event frame does to the server: a fresh receipt is the next of its session and
      nothing else changes; any other answer changes nothing. */
  ghost predicate Effect(sv: Server, next: Server, e: EventEnvelope, answer: Answer) {
    && (answer.Recorded? ==> answer.receipt.envelope == e && e.eventSeq in Handled(next, e.sessionId))
    && if Fresh(answer) then
         && e.eventSeq == Watermark(sv, e.sessionId) + 1
         && e.sessionId in sv.handled && next.handled.Keys == sv.handled.Keys
         && (forall s :: Handled(next, s) == Handled(sv, s) + if s == e.sessionId then {e.eventSeq} else {})
         && e.eventId !in sv.receipts && !SequenceTaken(sv, e)
         && next.receipts == sv.receipts[e.eventId := answer.receipt]
       else next == sv
  }

  /** A fresh receipt holds the decision just taken; a repeated frame gets the receipt of its first
      recording, whatever is decided now. */
  lemma RecordEffect(sv: Server, e: EventEnvelope, status: EventAckStatus, reason: Option<string>)
    requires Contiguous(sv) && ReceiptsDistinct(sv)
    ensures var (next, answer) := Record(sv, e, status, reason);
      && Effect(sv, next, e, answer)
      && (Fresh(answer) ==> answer.receipt == Receipt(e, status, reason) && ValidDecision(status, reason))
      && (answer.Recorded? && answer.duplicate ==>
            e.eventId in sv.receipts && answer.receipt == sv.receipts[e.eventId])
  {
  }

  /** Which answer an event frame gets. */
  lemma RecordAnswers(sv: Server, e: EventEnvelope, status: EventAckStatus, reason: Option<string>)
    requires ServerInv(sv)
    ensures var answer := Record(sv, e, status, reason).1;
      var decided := e.eventSeq >= 1 && if status.Accepted? then reason.None? else reason.Some? && reason.value != "";
      var taken := decided && e.sessionId in sv.handled;
      var next := Watermark(sv, e.sessionId) + 1;
      && (Fresh(answer) <==> taken && e.eventId !in sv.receipts && e.eventSeq == next)
      && (answer.Recorded? && answer.duplicate <==>
            taken && e.eventId in sv.receipts && sv.receipts[e.eventId].envelope == e)
      && (answer.UnknownSession? <==> decided && e.sessionId !in sv.handled)
      && (answer.SequenceGap? <==> taken && e.eventId !in sv.receipts && e.eventSeq > next)
      && (answer.SequenceGap? ==> answer == SequenceGap(next, e.eventSeq))
  {
    var m := Watermark(sv, e.sessionId);
    assert 1 <= e.eventSeq <= m ==> HasReceipt(sv, e.sessionId, e.eventSeq);
    if SequenceTaken(sv, e) {
      var id :| id in sv.receipts && sv.receipts[id].envelope.sessionId == e.sessionId
                && sv.receipts[id].envelope.eventSeq == e.eventSeq;
      assert e.eventSeq in Handled(sv, e.sessionId);
    }
  }

  lemma HandledNext(sv: Server, next: Server, e: EventEnvelope)
    requires forall s | s in sv.handled :: sv.handled[s] == Upto(Watermark(sv, s))
    requires e.eventSeq == Watermark(sv, e.sessionId) + 1
    requires e.sessionId in sv.handled && next.handled.Keys == sv.handled.Keys
    requires forall s :: Handled(next, s) == Handled(sv, s) + if s == e.sessionId then {e.eventSeq} else {}
    ensures forall s :: Watermark(next, s) == Watermark(sv, s) + if s == e.sessionId then 1 else 0
    ensures forall s | s in next.handled :: next.handled[s] == Upto(Watermark(next, s))
  {
    var m := Watermark(sv, e.sessionId);
    UptoNext(m);
    UptoGap(m + 1);
    assert next.handled[e.sessionId] == Upto(m + 1);
    forall s | s != e.sessionId ensures Handled(next, s) == Handled(sv, s) {
    }
  }

  lemma EffectKeeps(sv: Server, next: Server, e: EventEnvelope, answer: Answer)
    requires ServerInv(sv) && Effect(sv, next, e, answer)
    ensures ServerInv(next)
    ensures forall s :: Watermark(next, s) == Watermark(sv, s) + if Fresh(answer) && s == e.sessionId then 1 else 0
  {
    if Fresh(answer) {
      HandledNext(sv, next, e);
      StaysDistinct(sv, next, e, answer);
      StaysReceipted(sv, next, e, answer);
    }
  }

  lemma StaysDistinct(sv: Server, next: Server, e: EventEnvelope, answer: Answer)
    requires ReceiptsDistinct(sv) && Effect(sv, next, e, answer)
    ensures ReceiptsDistinct(next)
  {
    forall id, jd | SamePlace(next.receipts, id, jd) ensures id == jd {
      assert id in sv.receipts && jd in sv.receipts ==> SamePlace(sv.receipts, id, jd);
    }
  }

  lemma StaysReceipted(sv: Server, next: Server, e: EventEnvelope, answer: Answer)
    requires Receipted(sv) && Effect(sv, next, e, answer)
    ensures Receipted(next)
  {
    forall s, n | n in Handled(next, s) ensures HasReceipt(next, s, n) {
      if n in Handled(sv, s) {
        assert HasReceipt(sv, s, n);
        var id :| id in sv.receipts && sv.receipts[id].envelope.sessionId == s
                  && sv.receipts[id].envelope.eventSeq == n;
        assert id in next.receipts && next.receipts[id] == sv.receipts[id];
      } else {
        assert e.eventId in next.receipts;
      }
    }
  }

  lemma LogKeeps(sv: Server, next: Server, log: seq<EventEnvelope>, e: EventEnvelope, answer: Answer, s: Name)
    requires LogExact(sv, log, s) && Effect(sv, next, e, answer)
    requires Watermark(next, s) == Watermark(sv, s) + if Fresh(answer) && s == e.sessionId then 1 else 0
    ensures LogExact(next, Logged(log, e, answer), s)
  {
    if Fresh(answer) {
      var r, a := log + [e], SessionLog(log, s);
      assert r[..|r| - 1] == log;
      forall i | 0 <= i < |SessionLog(r, s)| ensures Entry(next, s, SessionLog(r, s)[i], i + 1) {
        if i < |a| {
          assert SessionLog(r, s)[i] == a[i] && Entry(sv, s, a[i], i + 1);
        }
      }
    }
  }
}
