/** The journal object: the file in memory, the file on disk, and the operations the daemon
    calls. Its ghost `store` is the pair of histories the two files stand for, and every method
    is an operation of DurableStore on it. */
module Journal {
  import opened Protocol
  import opened DeliveryLedger
  import opened JournalFile
  import opened DurableStore
  import Answers
  import LedgerInvariants
  import FileCommands
  import FileEvents
  import Compaction
  import CompletionReports
  import EventNames
  import Dispatch

  /** What every history a journal holds satisfies. */
  ghost predicate Inv(l: Ledger, limit: nat) {
    && LedgerInvariants.CommandInv(l, limit) && LedgerInvariants.EventBase(l)
    && forall id | id in l.commands :: ValidCommand(l.commands[id].envelope)
  }

  lemma PreparedInv(l: Ledger, e: CommandEnvelope, limit: nat)
    requires Inv(l, limit) && ValidCommand(e) && Prepare(l, e, limit).Ok?
    ensures var p := Prepare(l, e, limit).value;
      && Inv(p.ledger, limit) && (LedgerInvariants.Sourced(l) ==> LedgerInvariants.Sourced(p.ledger))
      && e.commandId in p.ledger.commands && p.ledger.commands[e.commandId] == p.entry && p.entry.envelope == e
      && p.buffered == (e.commandSeq > Expected(p.ledger, e.sessionId))
      && (p.entry.status.Received? ==> e.commandSeq >= Expected(p.ledger, e.sessionId))
  {
    var p := Prepare(l, e, limit).value;
    LedgerInvariants.PrepareKeeps(l, e, limit);
    LedgerInvariants.PrepareEntry(l, e, limit);
    LedgerInvariants.EventFrame(l, p.ledger);
  }

  lemma StartedInv(l: Ledger, id: Name, limit: nat)
    requires Inv(l, limit) && id in l.commands && l.commands[id].status.Received?
    requires
      || l.commands[id].envelope.commandSeq == Expected(l, l.commands[id].envelope.sessionId)
      || l.commands[id].envelope.command.SessionCancel?
    ensures Inv(MarkStarted(l, id), limit)
    ensures LedgerInvariants.Sourced(l) ==> LedgerInvariants.Sourced(MarkStarted(l, id))
  {
    LedgerInvariants.StartKeeps(l, id, limit);
    LedgerInvariants.EventFrame(l, MarkStarted(l, id));
  }

  lemma FinishedInv(l: Ledger, id: Name, outcome: Outcome, events: seq<Event>, now: string, limit: nat)
    requires Inv(l, limit) && id in l.commands && l.commands[id].status.DispatchStarted?
    requires LedgerInvariants.Untaken(l, FinishEvents(l, id, outcome, events, now))
    ensures Inv(Finish(l, id, outcome, events, now), limit)
    ensures LedgerInvariants.Sourced(l) ==> LedgerInvariants.Sourced(Finish(l, id, outcome, events, now))
    ensures Finish(l, id, outcome, events, now).commands
         == l.commands[id := l.commands[id].(status := Status.Terminal(outcome))]
  {
    LedgerInvariants.FinishKeeps(l, id, outcome, events, now, limit);
    LedgerInvariants.FinishCommandInv(l, id, outcome, events, now, limit);
  }

  lemma AppendedInv(l: Ledger, id: EventId, s: Name, event: Event, now: string, limit: nat)
    requires Inv(l, limit) && Append(l, id, s, event, now).Ok?
    ensures Inv(Append(l, id, s, event, now).value.ledger, limit)
    ensures LedgerInvariants.Sourced(l) && !LedgerInvariants.Anticipates(l, id) ==>
      LedgerInvariants.Sourced(Append(l, id, s, event, now).value.ledger)
  {
    var a := Append(l, id, s, event, now).value;
    LedgerInvariants.AppendKeeps(l, id, s, event, now);
    LedgerInvariants.AddAllFrame(l, [a.envelope]);
    LedgerInvariants.FrameKeeps(l, a.ledger, limit);
  }

  lemma AcknowledgedInv(l: Ledger, ack: EventAck, limit: nat)
    requires Inv(l, limit) && Acknowledge(l, ack).Ok?
    ensures Inv(Acknowledge(l, ack).value, limit)
    ensures LedgerInvariants.Sourced(l) ==> LedgerInvariants.Sourced(Acknowledge(l, ack).value)
  {
    LedgerInvariants.AcknowledgeEffect(l, ack);
    LedgerInvariants.AcknowledgeKeeps(l, ack);
    LedgerInvariants.FrameKeeps(l, Acknowledge(l, ack).value, limit);
  }

  lemma ReconciledInv(l: Ledger, rs: seq<SessionReconcileState>, limit: nat)
    requires Inv(l, limit)
    ensures Inv(Reconcile(l, rs), limit)
    ensures LedgerInvariants.Sourced(l) ==> LedgerInvariants.Sourced(Reconcile(l, rs))
  {
    LedgerInvariants.ReconcileIsUnion(l, rs);
    LedgerInvariants.ReconcileKeeps(l, rs);
    LedgerInvariants.FrameKeeps(l, Reconcile(l, rs), limit);
  }

  lemma ReadyIs(l: Ledger, s: Name, id: Name)
    requires LedgerInvariants.Keyed(l) && Ready(l, id, s)
    ensures ReadyId(l, s) == Some(id)
  {
    LedgerInvariants.SlotUnique(l, id, ReadyId(l, s).value, s, Expected(l, s));
  }

  /** The answer told to the caller of an append is the ledger's, up to the time on an event that
      was known before. */
  predicate Told(a: Result<EventEnvelope>, r: Result<EventEnvelope>, now: string, known: bool) {
    if a.Err? then r == a
    else r.Ok? && (r.value == a.value || (known && r.value == a.value.(sentAt := now)))
  }

  lemma AppendTold(f: File, l: Ledger, id: EventId, s: Name, event: Event, now: string, r: FileEvents.AppendedFile)
    requires Represents(f, l) && FileEvents.AppendAnswers(f, now, Ok(r), Append(l, id, s, event, now))
    requires LedgerInvariants.EventKeyed(l) && Append(l, id, s, event, now).Ok?
    ensures Told(Ok(Append(l, id, s, event, now).value.envelope), Ok(r.envelope), now, id in l.events)
  {
  }

  /** Finishing a command in the stored file: the history's own step when the ids of its events are
      free, and two events with one id when they are not. */
  lemma FinishedAnyway(f: File, l: Ledger, id: Name, outcome: Outcome, events: seq<Event>, now: string, limit: nat,
                       g: File)
    requires Represents(f, l) && Inv(l, limit) && Dispatch.Started(l, id)
    requires var es := FinishEvents(l, id, outcome, events, now);
      && g.events == FileEvents.Pushed(f, es).events && g.eventTombstones == f.eventTombstones
    ensures var es, m := FinishEvents(l, id, outcome, events, now), Finish(l, id, outcome, events, now);
      && (LedgerInvariants.Sourced(l) ==> LedgerInvariants.Untaken(l, es))
      && (LedgerInvariants.Untaken(l, es) ==>
            Inv(m, limit) && (LedgerInvariants.Sourced(l) ==> LedgerInvariants.Sourced(m)))
      && (!LedgerInvariants.Untaken(l, es) ==> EventNames.Shares(g))
  {
    var es := FinishEvents(l, id, outcome, events, now);
    if LedgerInvariants.Sourced(l) {
      LedgerInvariants.FinishSourced(l, id, outcome, events, now);
    }
    if LedgerInvariants.Untaken(l, es) {
      FinishedInv(l, id, outcome, events, now, limit);
    } else {
      var e :| e in es && e.eventId in l.events;
      var i :| 0 <= i < |es| && es[i] == e;
      EventNames.PushShares(f, l, es, i);
      SharesAgain(FileEvents.Pushed(f, es), g);
    }
  }

  lemma SharesAgain(f: File, g: File)
    requires EventNames.Shares(f) && EventNames.Names(f) == EventNames.Names(g)
    ensures EventNames.Shares(g)
  {
    var id :| EventNames.Names(f)[id] >= 2;
    assert EventNames.Names(g)[id] >= 2;
  }

  class Journal {
    const limit: nat
    var memory: File
    var disk: File
    ghost var store: Store

    ghost predicate Valid()
      reads this
    {
      && Represents(memory, store.memory) && Inv(store.memory, limit)
      && Represents(disk, store.disk) && Inv(store.disk, limit)
    }

    /** Moreover, no held event has an id the journal may still form. */
    ghost predicate Clear()
      reads this
    {
      Valid() && LedgerInvariants.Sourced(store.memory) && LedgerInvariants.Sourced(store.disk)
    }

    /** Open a journal where there is no file yet. */
    constructor (gapLimit: nat)
      ensures Clear() && limit == gapLimit && store == Store(EMPTY, EMPTY)
    {
      limit := gapLimit;
      memory, disk := EMPTY_FILE, EMPTY_FILE;
      store := Store(EMPTY, EMPTY);
      LedgerInvariants.EmptyLedger(gapLimit);
    }

    /** The process ends and a new one opens the same file. */
    method Restart()
      requires Valid()
      modifies this
      ensures Valid() && store == Store(old(store).disk, old(store).disk)
      ensures old(Clear()) ==> Clear()
    {
      memory := disk;
      store := Store(store.disk, store.disk);
    }

    /** Rewrite the file after a change in memory; a failed rewrite reloads what the file holds. */
    method Rewrite(next: File, p: Persist, ghost l: Ledger)
      modifies this
      ensures store == Commit(old(store), l, p)
      ensures memory == (if p.Saved? || (p.readable && p.written) then next
                         else if p.readable then old(disk) else old(memory))
      ensures disk == if p.Saved? || p.written then next else old(disk)
    {
      store := Commit(store, l, p);
      match p
      case Saved =>
        memory, disk := next, next;
      case Failed(written, readable) =>
        if written {
          disk := next;
        }
        if readable {
          memory := disk;
        }
    }

    /** A rewrite with a file that stands for the history `l`. */
    method Persisting(next: File, p: Persist, ghost l: Ledger)
      requires Valid() && Represents(next, l) && Inv(l, limit)
      modifies this
      ensures Valid() && store == Commit(old(store), l, p)
      ensures old(Clear()) && LedgerInvariants.Sourced(l) ==> Clear()
    {
      Rewrite(next, p, l);
    }

    /** Take a command in and, when it may run, put its start on disk before handing it out. */
    method AcceptCommand(e: CommandEnvelope, control: bool, now: string, p: Persist, q: Persist)
      returns (r: Result<Acceptance>)
      requires Valid()
      modifies this
      ensures Valid() && (store, r) == Accept(old(store), e, control, limit, p, q)
      ensures old(Clear()) ==> Clear()
    {
      if !ValidCommand(e) {
        return Err(ProtocolError);
      }
      var taken := FileCommands.PrepareCommand(memory, e, limit, now, store.memory);
      if taken.Err? {
        return Err(taken.error);
      }
      PreparedInv(store.memory, e, limit);
      ghost var prepared := Prepare(store.memory, e, limit).value;
      Persisting(taken.value.file, p, prepared.ledger);
      if !p.Saved? {
        return Err(IoError);
      }
      r := StartPrepared(e, control, taken.value, q, prepared);
    }

    method StartPrepared(
      e: CommandEnvelope, control: bool, taken: FileCommands.PreparedFile, q: Persist, ghost prepared: Prepared)
      returns (r: Result<Acceptance>)
      requires Valid() && store.memory == prepared.ledger
      requires FileCommands.Answers(Ok(taken), Ok(prepared)) && prepared.entry.envelope == e
      requires e.commandId in prepared.ledger.commands && prepared.ledger.commands[e.commandId] == prepared.entry
      requires prepared.buffered == (e.commandSeq > Expected(prepared.ledger, e.sessionId))
      requires prepared.entry.status.Received? ==> e.commandSeq >= Expected(prepared.ledger, e.sessionId)
      modifies this
      ensures Valid()
      ensures old(Clear()) ==> Clear()
      ensures HandsOut(prepared, e, control) ==>
        && store == Commit(old(store), MarkStarted(prepared.ledger, e.commandId), q)
        && r == if q.Saved? then
                  Ok(Acceptance(ProcessResult(AckOf(e), Status.DispatchStarted, prepared.duplicate, false), Some(e)))
                else Err(IoError)
      ensures !HandsOut(prepared, e, control) ==>
        && store == old(store)
        && r == Ok(Acceptance(
             ProcessResult(AckOf(e), prepared.entry.status, prepared.duplicate, prepared.buffered), None))
    {
      var interrupt := false;
      if control && e.command.SessionCancel? && taken.buffered {
        interrupt := FileCommands.HasPriorDispatchStarted(memory, e, store.memory);
      }
      var record := taken.record;
      if !record.state.Received? || (taken.buffered && !interrupt) {
        return Ok(Acceptance(
          ProcessResult(AckOf(record.envelope), StatusOf(record), taken.duplicate, taken.buffered), None));
      }
      var marked := FileCommands.MarkDispatchStarted(memory, e.commandId, store.memory);
      StartedInv(store.memory, e.commandId, limit);
      Persisting(marked.value.0, q, MarkStarted(store.memory, e.commandId));
      if !q.Saved? {
        return Err(IoError);
      }
      return Ok(Acceptance(
        ProcessResult(AckOf(record.envelope), Status.DispatchStarted, taken.duplicate, false), Some(record.envelope)));
    }

    /** The received record that fills the next place of a session. */
    method FindReady(s: Name) returns (found: Option<CommandEnvelope>)
      requires Valid()
      ensures match ReadyId(store.memory, s)
              case None => found == None
              case Some(id) => found == Some(store.memory.commands[id].envelope)
    {
      FileCommands.BoundaryRead(memory, store.memory, s);
      var expected := SessionEntry(memory.sessions, s).processedThrough + 1;
      var k := FileCommands.FindReceived(memory.commands, s, expected);
      FileCommands.ReceivedRecorded(memory.commands, memory.commandTombstones, store.memory, s);
      if k.None? {
        return None;
      }
      var r := memory.commands[k.value];
      assert RecordFits(r, store.memory);
      ReadyIs(store.memory, s, r.envelope.commandId);
      return Some(r.envelope);
    }

    /** Hand out the command a closed gap has released, if any. */
    method AcceptNextReady(s: Name, now: string, p: Persist, q: Persist) returns (r: Result<Option<Acceptance>>)
      requires Valid()
      modifies this
      ensures Valid() && (store, r) == AcceptNext(old(store), s, limit, p, q)
      ensures old(Clear()) ==> Clear()
    {
      var next := FindReady(s);
      if next.None? {
        return Ok(None);
      }
      var accepted := AcceptCommand(next.value, false, now, p, q);
      if accepted.Err? {
        return Err(accepted.error);
      }
      return Ok(Some(accepted.value));
    }

    /** The commands on record as started. */
    method StartedRecords() returns (es: seq<CommandEnvelope>)
      requires Valid()
      ensures forall e | e in es ::
        Dispatch.Started(store.memory, e.commandId) && store.memory.commands[e.commandId].envelope == e
      ensures forall id :: Dispatch.Started(store.memory, id) ==> exists e | e in es :: e.commandId == id
      ensures forall i, k | 0 <= i < k < |es| :: es[i].commandId != es[k].commandId
    {
      FileCommands.OpenIsRecorded(memory.commands, memory.commandTombstones, store.memory);
      es := FileCommands.StartedEnvelopes(memory.commands);
    }

    method CompactSession(s: Name, q: Persist)
      requires Valid()
      modifies this
      ensures Valid() && store == Commit(old(store), old(store).memory, q)
      ensures old(Clear()) ==> Clear()
    {
      var compacted := Compaction.Compact(memory, s, store.memory);
      Persisting(compacted, q, store.memory);
    }

    /** An id of an event the command would report is held already. */
    ghost predicate Taken(id: Name, outcome: Outcome, events: seq<Event>, now: string)
      reads this
    {
      && id in store.memory.commands
      && !LedgerInvariants.Untaken(store.memory, FinishEvents(store.memory, id, outcome, events, now))
    }

    /** Close a started command with its outcome and events, then compact. An id that is not on
        record is refused; that a recorded one is under way is what the callers supply. Nothing looks at
        the ids of its events: if one is held, two events share it from then on. */
    method CompleteCommand(id: Name, outcome: Outcome, events: seq<Event>, now: string, p: Persist, q: Persist)
      returns (r: Result<seq<EventEnvelope>>)
      requires Valid()
      requires id in store.memory.commands ==> store.memory.commands[id].status.DispatchStarted?
      modifies this
      ensures old(Clear()) ==> Clear() && !old(Taken(id, outcome, events, now))
      ensures !old(Taken(id, outcome, events, now)) ==>
        Valid() && (store, r) == Complete(old(store), id, outcome, events, now, p, q)
      ensures r.Ok? <==> id in old(store).memory.commands && p.Saved? && q.Saved?
      ensures r.Ok? ==>
        var l, s := old(store).memory, old(store).memory.commands[id].envelope.sessionId;
        CompletionReports.Reports(r.value, id, s, LastEventSeq(l, s), events, outcome, now)
      ensures old(Taken(id, outcome, events, now)) && p.Saved? ==>
        EventNames.Shares(memory) && EventNames.Shares(disk) && if q.Saved? then r.Ok? else r == Err(IoError)
      ensures old(Taken(id, outcome, events, now)) && p.Failed? ==>
        && r == Err(IoError)
        && (if p.written then EventNames.Shares(disk) else disk == old(disk))
        && if p.readable then memory == disk else memory == old(memory)
    {
      FileCommands.OpenIsRecorded(memory.commands, memory.commandTombstones, store.memory);
      var known := FileCommands.FindRecord(memory.commands, id);
      if known.None? {
        return Err(IdentityConflict);
      }
      assert RecordFits(memory.commands[known.value], store.memory);
      var s := memory.commands[known.value].envelope.sessionId;
      var finished, emitted := FileEvents.FinishCommand(memory, id, outcome, events, now, store.memory);
      ghost var l := Finish(store.memory, id, outcome, events, now);
      ghost var taken := Taken(id, outcome, events, now);
      FinishedAnyway(memory, store.memory, id, outcome, events, now, limit, finished);
      Rewrite(finished, p, l);
      if !p.Saved? {
        return Err(IoError);
      }
      var compacted := Compaction.Compact(memory, s, store.memory);
      Compaction.SameNames(memory, s);
      Rewrite(compacted, q, store.memory);
      return if q.Saved? then Ok(emitted) else Err(IoError);
    }

    /** Record a daemon event. A repeated id answers with the known event, with a fresh time if
        its payload has already been compacted away. */
    method AppendEvent(id: EventId, s: Name, event: Event, now: string, p: Persist) returns (r: Result<EventEnvelope>)
      requires Valid()
      modifies this
      ensures Valid() && store == DurableStore.AppendEvent(old(store), id, s, event, now, p).0
      ensures old(Clear()) && !LedgerInvariants.Anticipates(old(store).memory, id) ==> Clear()
      ensures Told(DurableStore.AppendEvent(old(store), id, s, event, now, p).1, r, now, id in old(store).memory.events)
    {
      var appended := FileEvents.AppendEvent(memory, id, s, event, now, store.memory);
      if appended.Err? {
        return Err(appended.error);
      }
      AppendedInv(store.memory, id, s, event, now, limit);
      AppendTold(memory, store.memory, id, s, event, now, appended.value);
      Persisting(appended.value.file, p, Append(store.memory, id, s, event, now).value.ledger);
      return if p.Saved? then Ok(appended.value.envelope) else Err(IoError);
    }

    /** Handle an acknowledgement frame: note it, then compact the session. */
    method AcknowledgeEvent(ack: EventAck, p: Persist, q: Persist) returns (r: Result<()>)
      requires Valid()
      modifies this
      ensures Valid() && (store, r) == AckEvent(old(store), ack, p, q)
      ensures var taken := ValidAck(ack) && Answers.Acknowledgeable(old(store).memory, ack);
        && (r.Ok? <==> taken && p.Saved? && q.Saved?)
        && (r.Err? ==> r.error == if taken then IoError else if ValidAck(ack) then IdentityConflict else ProtocolError)
      ensures old(Clear()) ==> Clear()
    {
      Answers.AcknowledgeAnswers(store.memory, ack);
      var acked := FileEvents.AcknowledgeEvent(memory, ack, store.memory);
      if acked.Err? {
        return Err(acked.error);
      }
      AcknowledgedInv(store.memory, ack, limit);
      Persisting(acked.value, p, Acknowledge(store.memory, ack).value);
      if !p.Saved? {
        return Err(IoError);
      }
      CompactSession(ack.sessionId, q);
      return if q.Saved? then Ok(()) else Err(IoError);
    }

    method ApplyReconciliation(rs: seq<SessionReconcileState>, p: Persist) returns (r: Result<()>)
      requires Valid()
      modifies this
      ensures Valid() && (store, r) == ApplySnapshot(old(store), rs, p)
      ensures old(Clear()) ==> Clear()
    {
      if !ValidSnapshot(rs) {
        return Err(ProtocolError);
      }
      var merged := FileEvents.ApplyReconciliation(memory, rs, store.memory);
      ReconciledInv(store.memory, rs, limit);
      Persisting(merged, p, Reconcile(store.memory, rs));
      return if p.Saved? then Ok(()) else Err(IoError);
    }

    method ReplayEvents(state: SessionReconcileState) returns (r: Result<seq<EventEnvelope>>)
      requires Valid()
      ensures r.Ok? <==> ValidReconcileState(state)
      ensures r.Ok? ==> IsReplay(store.memory, state, r.value)
      ensures r.Ok? ==> forall e :: e in r.value <==>
        && e.eventId in store.memory.events && store.memory.events[e.eventId].envelope == e
        && e.sessionId == state.sessionId && !(1 <= e.eventSeq <= state.eventAckThrough)
        && e.eventSeq !in state.eventAckSparse && e.eventSeq !in SessionOf(store.memory, e.sessionId).acked
    {
      if !ValidReconcileState(state) {
        return Err(ProtocolError);
      }
      var es := FileEvents.ReplayEvents(memory, state, store.memory);
      return Ok(es);
    }
  }
}
