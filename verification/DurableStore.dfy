/** The ledger held twice, in memory and on disk, and the journal's public operations on the
    pair. Every update works on memory and then rewrites the file; a failed rewrite reloads
    whatever the file holds. */
module DurableStore {
  import opened Protocol
  import opened DeliveryLedger

  /** How one rewrite ends. A failure may come before or after the new file replaced the old
      one, and the reload that follows a failure may itself fail. */
  datatype Persist = Saved | Failed(written: bool, readable: bool)

  datatype Store = Store(memory: Ledger, disk: Ledger)

  function Commit(st: Store, next: Ledger, p: Persist): Store {
    match p
    case Saved => Store(next, next)
    case Failed(written, readable) =>
      var disk := if written then next else st.disk;
      Store(if readable then disk else st.memory, disk)
  }

  datatype ProcessResult = ProcessResult(ack: CommandAck, status: Status, duplicate: bool, buffered: bool)

  datatype Acceptance = Acceptance(result: ProcessResult, command: Option<CommandEnvelope>)

  function AckOf(e: CommandEnvelope): CommandAck {
    CommandAck(e.commandId, e.sessionId, e.commandSeq)
  }

  /** Take a command in and, if it may run now, record the start before handing it out. */
  function Accept(st: Store, e: CommandEnvelope, control: bool, limit: nat, p: Persist, q: Persist)
    : (Store, Result<Acceptance>)
  {
    if !ValidCommand(e) then (st, Err(ProtocolError))
    else
      match Prepare(st.memory, e, limit)
      case Err(error) => (st, Err(error))
      case Ok(prepared) =>
        var taken := Commit(st, prepared.ledger, p);
        if !p.Saved? then (taken, Err(IoError))
        else
          var ack := AckOf(prepared.entry.envelope);
          if !HandsOut(prepared, e, control) then
            var result := ProcessResult(ack, prepared.entry.status, prepared.duplicate, prepared.buffered);
            (taken, Ok(Acceptance(result, None)))
          else
            assert e.commandId in taken.memory.commands;
            var started := Commit(taken, MarkStarted(taken.memory, e.commandId), q);
            if !q.Saved? then (started, Err(IoError))
            else
              (started, Ok(Acceptance(ProcessResult(ack, DispatchStarted, prepared.duplicate, false),
                                      Some(prepared.entry.envelope))))
  }

  /** Hand out the command a closed gap has released, if there is one. */
  ghost function AcceptNext(st: Store, s: Name, limit: nat, p: Persist, q: Persist)
    : (Store, Result<Option<Acceptance>>)
  {
    match ReadyId(st.memory, s)
    case None => (st, Ok(None))
    case Some(id) =>
      var (next, r) := Accept(st, st.memory.commands[id].envelope, false, limit, p, q);
      (next, if r.Ok? then Ok(Some(r.value)) else Err(r.error))
  }

  /** Close a command with its outcome and events, then compact, which the ledger does not see. */
  ghost function Complete(
    st: Store, id: Name, outcome: Outcome, events: seq<Event>, now: string, p: Persist, q: Persist)
    : (Store, Result<seq<EventEnvelope>>)
  {
    if id !in st.memory.commands then (st, Err(IdentityConflict))
    else
      var emitted := FinishEvents(st.memory, id, outcome, events, now);
      var closed := Commit(st, Finish(st.memory, id, outcome, events, now), p);
      if !p.Saved? then (closed, Err(IoError))
      else
        var compacted := Commit(closed, closed.memory, q);
        (compacted, if q.Saved? then Ok(emitted) else Err(IoError))
  }

  ghost function AppendEvent(st: Store, id: EventId, s: Name, event: Event, now: string, p: Persist)
    : (Store, Result<EventEnvelope>)
  {
    match Append(st.memory, id, s, event, now)
    case Err(error) => (st, Err(error))
    case Ok(appended) =>
      (Commit(st, appended.ledger, p), if p.Saved? then Ok(appended.envelope) else Err(IoError))
  }

  function AckEvent(st: Store, ack: EventAck, p: Persist, q: Persist): (Store, Result<()>) {
    match Acknowledge(st.memory, ack)
    case Err(error) => (st, Err(error))
    case Ok(next) =>
      var acked := Commit(st, next, p);
      if !p.Saved? then (acked, Err(IoError))
      else (Commit(acked, acked.memory, q), if q.Saved? then Ok(()) else Err(IoError))
  }

  function ApplySnapshot(st: Store, rs: seq<SessionReconcileState>, p: Persist): (Store, Result<()>) {
    if !ValidSnapshot(rs) then (st, Err(ProtocolError))
    else (Commit(st, Reconcile(st.memory, rs), p), if p.Saved? then Ok(()) else Err(IoError))
  }
}
