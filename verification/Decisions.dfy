/** What is decided about an event, once and for all: the server acknowledges it with that decision
    however often the event arrives, and the daemon takes every such acknowledgement. */
module Decisions {
  import opened Protocol
  import opened DeliveryLedger
  import opened DurableStore
  import opened ServerEvents
  import opened Delivery
  import EndToEnd
  import Dispatch
  import LedgerInvariants

  /* ---- The server's side ---- */

  /** What a frame does to the receipts. */
  lemma RecordStores(sv: Server, e: EventEnvelope, status: EventAckStatus, reason: Option<string>)
    ensures var (next, answer) := Record(sv, e, status, reason);
      && next.receipts == (if Fresh(answer) then sv.receipts[e.eventId := Receipt(e, status, reason)] else sv.receipts)
      && (Fresh(answer) ==>
            e.eventId !in sv.receipts && answer.receipt == Receipt(e, status, reason) && ValidDecision(status, reason))
      && (answer.Recorded? && answer.duplicate ==>
            e.eventId in sv.receipts && answer.receipt == sv.receipts[e.eventId])
  {
  }

  /** At step `k` the server recorded the event, with this decision. */
  ghost predicate RecordedAt(actions: seq<Action>, limit: nat, k: nat, e: EventEnvelope, status: EventAckStatus,
                             reason: Option<string>)
  {
    && k < |actions| && actions[k] == Receive(e, status, reason)
    && Run(actions[..k + 1], limit).log == Run(actions[..k], limit).log + [e]
  }

  /** The acknowledgement repeats the decision of the step that recorded its event. */
  ghost predicate Decided(actions: seq<Action>, limit: nat, ack: EventAck) {
    exists k: nat, e, status, reason ::
      RecordedAt(actions, limit, k, e, status, reason)
      && ack == EventAck(e.eventId, e.sessionId, e.eventSeq, status, reason)
  }

  ghost predicate AllDecided(actions: seq<Action>, limit: nat) {
    && (forall id | id in Run(actions, limit).server.receipts ::
          Decided(actions, limit, AckFor(Run(actions, limit).server.receipts[id])))
    && forall ack | ack in Run(actions, limit).acks :: Decided(actions, limit, ack)
  }

  lemma StillDecided(actions: seq<Action>, limit: nat, n: nat, ack: EventAck)
    requires n <= |actions| && Decided(actions[..n], limit, ack)
    ensures Decided(actions, limit, ack)
  {
    var k: nat, e, status, reason :|
      RecordedAt(actions[..n], limit, k, e, status, reason)
      && ack == EventAck(e.eventId, e.sessionId, e.eventSeq, status, reason);
    assert actions[..n][..k + 1] == actions[..k + 1] && actions[..n][..k] == actions[..k];
    assert RecordedAt(actions, limit, k, e, status, reason);
  }

  lemma FreshDecided(actions: seq<Action>, limit: nat, e: EventEnvelope, status: EventAckStatus, reason: Option<string>)
    requires |actions| > 0 && actions[|actions| - 1] == Receive(e, status, reason)
    requires var sys := Run(actions[..|actions| - 1], limit);
      e in sys.events && Fresh(Record(sys.server, e, status, reason).1)
    ensures var sys := Run(actions[..|actions| - 1], limit);
      Decided(actions, limit, AckFor(Record(sys.server, e, status, reason).1.receipt))
  {
    var n := |actions| - 1;
    RecordStores(Run(actions[..n], limit).server, e, status, reason);
    assert actions[..n + 1] == actions;
    assert RecordedAt(actions, limit, n, e, status, reason);
  }

  /** What one step adds to receipts and acknowledgements. */
  lemma StepAdds(sys: System, a: Action, limit: nat)
    ensures var next := Step(sys, a, limit);
      && (forall id | id in next.server.receipts ::
            || (id in sys.server.receipts && next.server.receipts[id] == sys.server.receipts[id])
            || (Adds(sys, a) && next.server.receipts[id] == Record(sys.server, a.event, a.status, a.reason).1.receipt))
      && forall ack | ack in next.acks ::
           || ack in sys.acks
           || (exists id | id in sys.server.receipts :: ack == AckFor(sys.server.receipts[id]))
           || (Adds(sys, a) && ack == AckFor(Record(sys.server, a.event, a.status, a.reason).1.receipt))
  {
    if a.Receive? {
      RecordStores(sys.server, a.event, a.status, a.reason);
    }
  }

  predicate Adds(sys: System, a: Action) {
    a.Receive? && a.event in sys.events && Fresh(Record(sys.server, a.event, a.status, a.reason).1)
  }

  lemma StepDecided(actions: seq<Action>, limit: nat)
    requires |actions| > 0 && AllDecided(actions[..|actions| - 1], limit)
    ensures AllDecided(actions, limit)
  {
    var n := |actions| - 1;
    var sys, a := Run(actions[..n], limit), actions[n];
    forall ack | Decided(actions[..n], limit, ack) ensures Decided(actions, limit, ack) {
      StillDecided(actions, limit, n, ack);
    }
    StepAdds(sys, a, limit);
    if Adds(sys, a) {
      FreshDecided(actions, limit, a.event, a.status, a.reason);
    }
  }

  lemma {:induction false} RunDecided(actions: seq<Action>, limit: nat)
    ensures AllDecided(actions, limit)
  {
    if actions != [] {
      RunDecided(actions[..|actions| - 1], limit);
      StepDecided(actions, limit);
    }
  }

  lemma LoggedStep(sys: System, e: EventEnvelope, status: EventAckStatus, reason: Option<string>, limit: nat)
    requires Step(sys, Receive(e, status, reason), limit).log == sys.log + [e]
    ensures e.eventId !in sys.server.receipts
    ensures e.eventId in Step(sys, Receive(e, status, reason), limit).server.receipts
  {
    RecordStores(sys.server, e, status, reason);
    assert |sys.log + [e]| == |sys.log| + 1;
  }

  lemma LoggedFresh(actions: seq<Action>, limit: nat, k: nat, e: EventEnvelope, status: EventAckStatus,
                    reason: Option<string>)
    requires RecordedAt(actions, limit, k, e, status, reason)
    ensures e.eventId !in Run(actions[..k], limit).server.receipts
    ensures e.eventId in Run(actions[..k + 1], limit).server.receipts
  {
    assert actions[..k + 1][..k] == actions[..k] && actions[..k + 1][k] == actions[k];
    LoggedStep(Run(actions[..k], limit), e, status, reason, limit);
  }

  lemma {:induction false} ReceiptsStay(actions: seq<Action>, limit: nat, m: nat, n: nat, id: EventId)
    requires m <= n <= |actions| && id in Run(actions[..m], limit).server.receipts
    ensures id in Run(actions[..n], limit).server.receipts
  {
    if m < n {
      ReceiptsStay(actions, limit, m, n - 1, id);
      assert actions[..n][..n - 1] == actions[..n - 1];
      ReceiptsGrow(Run(actions[..n - 1], limit), actions[n - 1], limit);
    }
  }

  lemma ReceiptsGrow(sys: System, a: Action, limit: nat)
    ensures forall id | id in sys.server.receipts :: id in Step(sys, a, limit).server.receipts
  {
    if a.Receive? {
      RecordStores(sys.server, a.event, a.status, a.reason);
    }
  }

  /** An event is recorded at one step only, so there is one decision about it. */
  lemma RecordedOnce(actions: seq<Action>, limit: nat, j: nat, d: EventEnvelope, given: EventAckStatus,
                     because: Option<string>, k: nat, e: EventEnvelope, status: EventAckStatus, reason: Option<string>)
    requires RecordedAt(actions, limit, j, d, given, because) && RecordedAt(actions, limit, k, e, status, reason)
    requires d.eventId == e.eventId
    ensures j == k && d == e && given == status && because == reason
  {
    LoggedFresh(actions, limit, j, d, given, because);
    LoggedFresh(actions, limit, k, e, status, reason);
    if j < k {
      ReceiptsStay(actions, limit, j + 1, k, e.eventId);
    } else if k < j {
      ReceiptsStay(actions, limit, k + 1, j, e.eventId);
    }
  }

  /** Over every run: each acknowledgement on the network, that of a repeated frame included, carries
      the decision taken when its event was recorded, and there was only that one. */
  lemma AcksCarryDecision(actions: seq<Action>, limit: nat, ack: EventAck)
    requires ack in Run(actions, limit).acks
    ensures Decided(actions, limit, ack)
    ensures forall k: nat, e, status, reason ::
      RecordedAt(actions, limit, k, e, status, reason) && e.eventId == ack.eventId ==>
        ack == EventAck(e.eventId, e.sessionId, e.eventSeq, status, reason)
  {
    RunDecided(actions, limit);
    var j: nat, d, given, because :|
      RecordedAt(actions, limit, j, d, given, because)
      && ack == EventAck(d.eventId, d.sessionId, d.eventSeq, given, because);
    forall k: nat, e, status, reason | RecordedAt(actions, limit, k, e, status, reason) && e.eventId == ack.eventId
      ensures ack == EventAck(e.eventId, e.sessionId, e.eventSeq, status, reason)
    {
      RecordedOnce(actions, limit, j, d, given, because, k, e, status, reason);
    }
  }

  /* ---- The daemon's side ---- */

  /** A status noted on an event is the one the server decided. */
  ghost predicate NotedRight(l: Ledger, sv: Server) {
    forall id | id in l.events && l.events[id].ack.Some? ::
      id in sv.receipts && l.events[id].ack == Some(sv.receipts[id].status)
  }

  ghost predicate BothRight(st: Store, sv: Server) {
    NotedRight(st.memory, sv) && NotedRight(st.disk, sv)
  }

  ghost predicate FromReceipts(sv: Server, acks: set<EventAck>) {
    && (forall id | id in sv.receipts :: ValidDecision(sv.receipts[id].status, sv.receipts[id].reason))
    && forall ack | ack in acks :: ack.eventId in sv.receipts && ack == AckFor(sv.receipts[ack.eventId])
  }

  lemma CommitRight(st: Store, next: Ledger, p: Persist, sv: Server)
    requires BothRight(st, sv) && NotedRight(next, sv)
    ensures BothRight(Commit(st, next, p), sv)
  {
  }

  lemma AcceptRight(st: Store, e: CommandEnvelope, control: bool, limit: nat, p: Persist, q: Persist, sv: Server)
    requires BothRight(st, sv)
    ensures BothRight(Accept(st, e, control, limit, p, q).0, sv)
  {
  }

  lemma FinishRight(l: Ledger, id: Name, outcome: Outcome, events: seq<Event>, now: string, sv: Server)
    requires NotedRight(l, sv) && LedgerInvariants.Sourced(l) && Dispatch.Started(l, id)
    ensures NotedRight(Finish(l, id, outcome, events, now), sv)
  {
    LedgerInvariants.FinishSourced(l, id, outcome, events, now);
    LedgerInvariants.FinishContents(l, id, outcome, events, now);
    var r, es := Finish(l, id, outcome, events, now), FinishEvents(l, id, outcome, events, now);
    forall x | x in r.events && x !in l.events ensures r.events[x].ack.None? {
      assert x in LedgerInvariants.IdsOf(es);
    }
  }

  lemma AppendRight(l: Ledger, id: EventId, s: Name, event: Event, now: string, sv: Server)
    requires NotedRight(l, sv) && Append(l, id, s, event, now).Ok?
    ensures NotedRight(Append(l, id, s, event, now).value.ledger, sv)
  {
    LedgerInvariants.AddOne(l, Append(l, id, s, event, now).value.envelope);
  }

  lemma AcknowledgeRight(l: Ledger, ack: EventAck, sv: Server, acks: set<EventAck>)
    requires NotedRight(l, sv) && FromReceipts(sv, acks) && ack in acks && Acknowledge(l, ack).Ok?
    ensures NotedRight(Acknowledge(l, ack).value, sv)
  {
    LedgerInvariants.AcknowledgeEffect(l, ack);
  }

  lemma CompleteRight(st: Store, id: Name, outcome: Outcome, events: seq<Event>, now: string, p: Persist, q: Persist,
                      sv: Server)
    requires BothRight(st, sv) && LedgerInvariants.Sourced(st.memory) && Dispatch.Started(st.memory, id)
    ensures BothRight(Complete(st, id, outcome, events, now, p, q).0, sv)
  {
    FinishRight(st.memory, id, outcome, events, now, sv);
    CommitRight(st, Finish(st.memory, id, outcome, events, now), p, sv);
  }

  lemma AppendEventRight(st: Store, id: EventId, s: Name, event: Event, now: string, p: Persist, sv: Server)
    requires BothRight(st, sv)
    ensures BothRight(AppendEvent(st, id, s, event, now, p).0, sv)
  {
    if Append(st.memory, id, s, event, now).Ok? {
      AppendRight(st.memory, id, s, event, now, sv);
      CommitRight(st, Append(st.memory, id, s, event, now).value.ledger, p, sv);
    }
  }

  lemma AckEventRight(st: Store, ack: EventAck, p: Persist, q: Persist, sv: Server, acks: set<EventAck>)
    requires BothRight(st, sv) && FromReceipts(sv, acks) && ack in acks
    ensures BothRight(AckEvent(st, ack, p, q).0, sv)
  {
    if Acknowledge(st.memory, ack).Ok? {
      AcknowledgeRight(st.memory, ack, sv, acks);
      CommitRight(st, Acknowledge(st.memory, ack).value, p, sv);
    }
  }

  lemma SnapshotRight(st: Store, rs: seq<SessionReconcileState>, p: Persist, sv: Server)
    requires BothRight(st, sv)
    ensures BothRight(ApplySnapshot(st, rs, p).0, sv)
  {
    LedgerInvariants.ReconcileIsUnion(st.memory, rs);
  }

  lemma DaemonRight(d: Dispatch.Daemon, a: Dispatch.Action, limit: nat, sv: Server, acks: set<EventAck>)
    requires BothRight(d.store, sv) && FromReceipts(sv, acks) && (a.Acknowledging? ==> a.ack in acks)
    requires LedgerInvariants.Sourced(d.store.memory)
    requires forall id | id in d.inFlight :: Dispatch.Started(d.store.memory, id)
    ensures BothRight(Dispatch.Step(d, a, limit).store, sv)
  {
    var st := d.store;
    if Dispatch.Enabled(d, a) {
      match a
      case AcceptCommand(e, control, p, q) => AcceptRight(st, e, control, limit, p, q, sv);
      case AcceptReady(s, p, q) =>
        if ReadyId(st.memory, s).Some? {
          AcceptRight(st, st.memory.commands[ReadyId(st.memory, s).value].envelope, false, limit, p, q, sv);
        }
      case CompleteCommand(id, outcome, events, now, p, q) => CompleteRight(st, id, outcome, events, now, p, q, sv);
      case Appending(id, s, event, now, p) => AppendEventRight(st, id, s, event, now, p, sv);
      case Acknowledging(ack, p, q) => AckEventRight(st, ack, p, q, sv, acks);
      case Reconciling(rs, p) => SnapshotRight(st, rs, p, sv);
      case Restart =>
    }
  }

  /** Receipts that stay and grow by one. */
  lemma StoredRight(st: Store, sv: Server, next: Server, acks: set<EventAck>, id: EventId, r: Receipt)
    requires FromReceipts(sv, acks) && BothRight(st, sv) && ValidDecision(r.status, r.reason)
    requires next.receipts == sv.receipts || (id !in sv.receipts && next.receipts == sv.receipts[id := r])
    ensures FromReceipts(next, acks) && BothRight(st, next)
  {
  }

  lemma AnswerRight(sv: Server, acks: set<EventAck>, id: EventId)
    requires FromReceipts(sv, acks) && id in sv.receipts && sv.receipts[id].envelope.eventId == id
    ensures FromReceipts(sv, acks + {AckFor(sv.receipts[id])})
  {
  }

  lemma ReceiveRight(st: Store, sv: Server, acks: set<EventAck>, e: EventEnvelope, status: EventAckStatus,
                     reason: Option<string>)
    requires FromReceipts(sv, acks) && BothRight(st, sv)
    requires forall id | id in sv.receipts :: sv.receipts[id].envelope.eventId == id
    ensures var (next, answer) := Record(sv, e, status, reason);
      && BothRight(st, next)
      && FromReceipts(next, if answer.Recorded? then acks + {AckFor(answer.receipt)} else acks)
  {
    var (next, answer) := Record(sv, e, status, reason);
    RecordStores(sv, e, status, reason);
    if Fresh(answer) {
      StoredRight(st, sv, next, acks, e.eventId, Receipt(e, status, reason));
      AnswerRight(next, acks, e.eventId);
    } else {
      assert next.receipts == sv.receipts;
      if ValidDecision(status, reason) {
        StoredRight(st, sv, next, acks, e.eventId, Receipt(e, status, reason));
      }
      if answer.Recorded? {
        AnswerRight(next, acks, e.eventId);
      }
    }
  }

  ghost predicate Right(sys: System) {
    FromReceipts(sys.server, sys.acks) && BothRight(sys.daemon.store, sys.server)
  }

  lemma StepRight(sys: System, a: Action, limit: nat)
    requires EndToEnd.Safe(sys, limit) && Right(sys)
    ensures Right(Step(sys, a, limit))
  {
    match a
    case Daemon(action) =>
      if Allowed(sys, action) {
        DaemonRight(sys.daemon, action, limit, sys.server, sys.acks);
      }
    case Receive(e, status, reason) => ReceiveRight(sys.daemon.store, sys.server, sys.acks, e, status, reason);
    case _ =>
  }

  lemma {:induction false} RunRight(actions: seq<Action>, limit: nat)
    ensures Right(Run(actions, limit))
  {
    if actions != [] {
      RunRight(actions[..|actions| - 1], limit);
      EndToEnd.RunSafe(actions[..|actions| - 1], limit);
      StepRight(Run(actions[..|actions| - 1], limit), actions[|actions| - 1], limit);
    }
  }

  /** Over every run: the daemon refuses no acknowledgement that is on the network, however late it comes
      and however often, and notes the status the server decided. */
  lemma AcksAreTaken(actions: seq<Action>, limit: nat, ack: EventAck)
    requires ack in Run(actions, limit).acks
    ensures var l := Memory(Run(actions, limit));
      && Acknowledge(l, ack).Ok? && ack.eventId in l.events
      && (l.events[ack.eventId].ack.Some? ==> l.events[ack.eventId].ack == Some(ack.status))
  {
    RunRight(actions, limit);
    EndToEnd.RunSafe(actions, limit);
    var sys := Run(actions, limit);
    assert ack.eventSeq in Handled(sys.server, ack.sessionId);
    assert ack.eventSeq >= 1;
  }
}
