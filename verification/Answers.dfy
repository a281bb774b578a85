/** What the operations of the journal answer, told on the history itself: when each accepts, what it
    refuses and why, and what asking again gets. */
module Answers {
  import opened Protocol
  import opened DeliveryLedger
  import opened DurableStore
  import LedgerInvariants

  /* ---- Commands ---- */

  predicate Carries(e: CommandEnvelope, m: Name) {
    e.command.MessageSend? && e.command.messageId == m
  }

  /** A held command that is not this one has its id, its place, or its message. */
  predicate Clashes(l: Ledger, e: CommandEnvelope) {
    exists id | id in l.commands :: l.commands[id].envelope != e && Shares(l.commands[id].envelope, e)
  }

  predicate Shares(held: CommandEnvelope, e: CommandEnvelope) {
    || held.commandId == e.commandId
    || (held.sessionId == e.sessionId
        && (held.commandSeq == e.commandSeq || (e.command.MessageSend? && Carries(held, e.command.messageId))))
  }

  /** The unfinished commands of the session beyond the next place. */
  function Buffer(l: Ledger, s: Name): set<Name> {
    set id | id in l.commands && l.commands[id].envelope.sessionId == s && !l.commands[id].status.Terminal?
             && l.commands[id].envelope.commandSeq > Processed(l, s) + 1
  }

  lemma ClashIsConflict(l: Ledger, e: CommandEnvelope)
    ensures Clashes(l, e) <==> Conflicts(l, e)
  {
    forall id | id in l.commands
      ensures Shares(l.commands[id].envelope, e) <==> Related(l.commands[id].envelope, e)
    {
    }
  }

  /** A command is taken in exactly when it clashes with none and, if it is new and beyond the next place,
      the buffer of its session has room. A clash is told first. */
  lemma IntakeAnswers(l: Ledger, e: CommandEnvelope, limit: nat)
    requires LedgerInvariants.CommandInv(l, limit) && ValidCommand(e)
    ensures var r := Prepare(l, e, limit);
      var known, early := e.commandId in l.commands, e.commandSeq > Processed(l, e.sessionId) + 1;
      && (r.Ok? <==> !Clashes(l, e) && (known || !early || |Buffer(l, e.sessionId)| < limit))
      && (r.Err? ==> r.error == if Clashes(l, e) then IdentityConflict else GapOverflow(e.sessionId, limit))
      && (r.Ok? ==>
            && (r.value.duplicate <==> known) && (r.value.buffered <==> early)
            && r.value.entry == (if known then l.commands[e.commandId] else CommandEntry(e, Received))
            && r.value.ledger == if known then l
                                 else l.(commands := l.commands[e.commandId := CommandEntry(e, Received)]))
  {
    ClashIsConflict(l, e);
    assert Buffer(l, e.sessionId) == Waiting(l, e.sessionId);
    if e.commandId !in l.commands && e.commandSeq < Expected(l, e.sessionId) {
      LedgerInvariants.BelowBoundaryConflicts(l, limit, e);
    }
  }

  predicate StartedEarlier(l: Ledger, e: CommandEnvelope) {
    exists id | id in l.commands ::
      && l.commands[id].status == DispatchStarted
      && l.commands[id].envelope.sessionId == e.sessionId && l.commands[id].envelope.commandSeq < e.commandSeq
  }

  /** A command that may run: not begun, and next of its session or, as a cancellation on the control path,
      behind work under way. */
  predicate MayRun(l: Ledger, e: CommandEnvelope, control: bool) {
    && (e.commandId in l.commands ==> l.commands[e.commandId].status == Received)
    && (e.commandSeq <= Processed(l, e.sessionId) + 1
        || (control && e.command.SessionCancel? && StartedEarlier(l, e)))
  }

  /** What accepting a frame answers, and when the command is handed out. */
  lemma AcceptanceAnswers(st: Store, e: CommandEnvelope, control: bool, limit: nat, p: Persist, q: Persist)
    requires LedgerInvariants.CommandInv(st.memory, limit)
    ensures var l := st.memory;
      var r := Accept(st, e, control, limit, p, q).1;
      var taken := ValidCommand(e) && Prepare(l, e, limit).Ok?;
      var known := e.commandId in l.commands;
      && (r.Ok? <==> taken && p.Saved? && (MayRun(l, e, control) ==> q.Saved?))
      && (r.Err? && !ValidCommand(e) ==> r.error == ProtocolError)
      && (r.Err? && ValidCommand(e) ==> r.error == if taken then IoError else Prepare(l, e, limit).error)
      && (r.Ok? ==>
            && r.value.command == (if MayRun(l, e, control) then Some(e) else None)
            && r.value.result == ProcessResult(
                 CommandAck(e.commandId, e.sessionId, e.commandSeq),
                 if MayRun(l, e, control) then DispatchStarted
                 else if known then l.commands[e.commandId].status else Received,
                 known,
                 !MayRun(l, e, control) && e.commandSeq > Processed(l, e.sessionId) + 1))
  {
    if ValidCommand(e) && Prepare(st.memory, e, limit).Ok? {
      LedgerInvariants.PrepareEntry(st.memory, e, limit);
      PriorIs(st.memory, Prepare(st.memory, e, limit).value.ledger, e);
    }
  }

  lemma PriorIs(l: Ledger, m: Ledger, e: CommandEnvelope)
    requires m == l || m.commands == l.commands[e.commandId := CommandEntry(e, Received)]
    requires e.commandId in l.commands ==> m == l
    ensures PriorDispatch(m, e) <==> StartedEarlier(l, e)
  {
    if StartedEarlier(l, e) {
      var id :| id in l.commands && l.commands[id].status == DispatchStarted
                && l.commands[id].envelope.sessionId == e.sessionId
                && l.commands[id].envelope.commandSeq < e.commandSeq;
      assert id in m.commands && m.commands[id] == l.commands[id];
    }
    if PriorDispatch(m, e) {
      var id :| id in m.commands && m.commands[id].envelope.sessionId == e.sessionId
                && m.commands[id].envelope.commandSeq < e.commandSeq && m.commands[id].status.DispatchStarted?;
      assert id in l.commands && l.commands[id] == m.commands[id];
    }
  }

  /* ---- Events ---- */

  /** An append under a held id answers with that event if it is the same, and is a conflict if not; under a
      fresh id it takes the next number of the session. */
  lemma AppendAnswers(l: Ledger, id: EventId, s: Name, event: Event, now: string)
    ensures var r := Append(l, id, s, event, now);
      var e := EventEnvelope(id, s, LastEventSeq(l, s) + 1, now, event);
      && (r.Ok? <==>
            if id in l.events then l.events[id].envelope.sessionId == s && l.events[id].envelope.event == event
            else ValidEvent(e))
      && (r.Err? ==> r.error == if id in l.events then IdentityConflict else ProtocolError)
      && (r.Ok? ==>
            && (r.value.duplicate <==> id in l.events)
            && r.value.envelope == (if id in l.events then l.events[id].envelope else e)
            && r.value.ledger == if id in l.events then l
                                 else l.(events := l.events[id := EventEntry(e, None)]))
  {
    if id !in l.events {
      LedgerInvariants.AddOne(l, EventEnvelope(id, s, LastEventSeq(l, s) + 1, now, event));
    }
  }

  /** The acknowledged event is held at the place named, and no other status was noted for it. */
  predicate Acknowledgeable(l: Ledger, ack: EventAck) {
    && ack.eventId in l.events
    && l.events[ack.eventId].envelope.sessionId == ack.sessionId
    && l.events[ack.eventId].envelope.eventSeq == ack.eventSeq
    && match l.events[ack.eventId].ack
       case None => true
       case Some(status) => status == ack.status
  }

  lemma AcknowledgeAnswers(l: Ledger, ack: EventAck)
    ensures Acknowledge(l, ack).Ok? <==> ValidAck(ack) && Acknowledgeable(l, ack)
    ensures Acknowledge(l, ack).Err? ==>
      Acknowledge(l, ack).error == if ValidAck(ack) then IdentityConflict else ProtocolError
  {
  }

  /** The same acknowledgement again changes nothing, and the other status is a conflict. */
  lemma AcknowledgeAgain(l: Ledger, ack: EventAck, reason: Option<string>)
    requires Acknowledge(l, ack).Ok?
    ensures var m := Acknowledge(l, ack).value;
      var other := EventAck(ack.eventId, ack.sessionId, ack.eventSeq,
                            if ack.status.Accepted? then Rejected else Accepted, reason);
      && Acknowledge(m, ack) == Ok(m)
      && (ValidAck(other) ==> Acknowledge(m, other) == Err(IdentityConflict))
  {
    LedgerInvariants.AcknowledgeEffect(l, ack);
    var m := Acknowledge(l, ack).value;
    assert m.events[ack.eventId := m.events[ack.eventId].(ack := Some(ack.status))] == m.events;
  }

  /** So it is for frames, each of which also compacts its session, and however the rewrites of the second
      one end. */
  lemma AckFrameAgain(st: Store, ack: EventAck, reason: Option<string>, p: Persist, q: Persist)
    requires AckEvent(st, ack, Saved, Saved).1.Ok?
    ensures var next := AckEvent(st, ack, Saved, Saved).0;
      var other := EventAck(ack.eventId, ack.sessionId, ack.eventSeq,
                            if ack.status.Accepted? then Rejected else Accepted, reason);
      && AckEvent(next, ack, p, q) == (next, if p.Saved? && q.Saved? then Ok(()) else Err(IoError))
      && (ValidAck(other) ==> AckEvent(next, other, p, q) == (next, Err(IdentityConflict)))
  {
    AcknowledgeAgain(st.memory, ack, reason);
  }

  /* ---- Reconciliation ---- */

  function Larger(a: nat, b: nat): nat {
    if a >= b then a else b
  }

  /** What the server says it knows of acknowledged commands is kept if it is more than before. */
  lemma {:induction false} ReconcileServerAck(l: Ledger, rs: seq<SessionReconcileState>, i: nat)
    requires i < |rs| && forall j, k | 0 <= j < k < |rs| :: rs[j].sessionId != rs[k].sessionId
    ensures SessionOf(Reconcile(l, rs), rs[i].sessionId).serverCommandAck
         == Larger(SessionOf(l, rs[i].sessionId).serverCommandAck, rs[i].commandAckThrough)
  {
    var front := rs[..|rs| - 1];
    if i < |front| {
      ReconcileServerAck(l, front, i);
    } else {
      NotListed(l, front, rs[i].sessionId);
    }
  }

  lemma {:induction false} NotListed(l: Ledger, rs: seq<SessionReconcileState>, s: Name)
    requires forall r | r in rs :: r.sessionId != s
    ensures SessionOf(Reconcile(l, rs), s) == SessionOf(l, s)
  {
    if rs != [] {
      NotListed(l, rs[..|rs| - 1], s);
      assert rs[|rs| - 1] in rs;
    }
  }
}
