/** Compaction as a whole, and what nobody can tell afterwards. */
module Compaction {
  import opened Protocol
  import opened DeliveryLedger
  import opened JournalFile
  import opened DurableStore
  import LedgerInvariants
  import FileCommands
  import FileEvents
  import EventNames

  function Compacted(f: File, s: Name): File {
    var entry := SessionEntry(f.sessions, s);
    var through, sparse := entry.eventAckThrough, entry.eventAckSparse;
    File(f.sessions,
         FileCommands.Kept(f.commands, s, entry.processedThrough),
         f.commandTombstones + FileCommands.Buried(f.commands, s, entry.processedThrough),
         FileEvents.Kept(f.events, s, through, sparse),
         f.eventTombstones + FileEvents.Buried(f.events, s, through, sparse))
  }

  /** Replace finished commands and acknowledged events of a session by identity tombstones. */
  method Compact(f: File, s: Name, ghost l: Ledger) returns (g: File)
    ensures g == Compacted(f, s)
    ensures Represents(f, l) ==> Represents(g, l) && Buries(f, g, s)
  {
    var entry := SessionEntry(f.sessions, s);
    var commands, buriedCommands :=
      FileCommands.CompactCommands(f.commands, f.commandTombstones, s, entry.processedThrough);
    var events, buriedEvents :=
      FileEvents.CompactEvents(f.events, f.eventTombstones, s, entry.eventAckThrough, entry.eventAckSparse);
    g := File(f.sessions, commands, buriedCommands, events, buriedEvents);
    if Represents(f, l) {
      FileCommands.BoundaryRead(f, l, s);
      FileCommands.CompactionKeepsCommands(f.commands, f.commandTombstones, l, s);
      FileEvents.CompactionKeepsEvents(f.events, f.eventTombstones, l, s, entry);
      Emptied(f, g, l, s);
    }
  }

  /** Compaction neither drops nor adds an event id. */
  lemma SameNames(f: File, s: Name)
    ensures EventNames.Names(Compacted(f, s)) == EventNames.Names(f)
  {
    var entry := SessionEntry(f.sessions, s);
    var buried := FileEvents.Buried(f.events, s, entry.eventAckThrough, entry.eventAckSparse);
    EventNames.CompactionKeepsNames(f.events, s, entry.eventAckThrough, entry.eventAckSparse);
    EventNames.TombNamesAppend(f.eventTombstones, buried);
  }

  /** What is left of the session on record: nothing finished at or below its boundary, nothing
      acknowledged; all other records are untouched. */
  ghost predicate Buries(f: File, g: File, s: Name) {
    && g.sessions == f.sessions
    && (forall r :: r in g.commands <==>
          r in f.commands && !(r.envelope.sessionId == s && r.state.Terminal?
                               && r.envelope.commandSeq <= SessionEntry(f.sessions, s).processedThrough))
    && (forall r :: r in g.events <==> r in f.events && !(r.envelope.sessionId == s && r.acknowledged))
  }

  lemma Emptied(f: File, g: File, l: Ledger, s: Name)
    requires Represents(f, l) && g.sessions == f.sessions
    requires var entry := SessionEntry(f.sessions, s);
      && g.commands == FileCommands.Kept(f.commands, s, entry.processedThrough)
      && g.events == FileEvents.Kept(f.events, s, entry.eventAckThrough, entry.eventAckSparse)
    ensures Buries(f, g, s)
  {
    var entry := SessionEntry(f.sessions, s);
    FileCommands.BoundaryRead(f, l, s);
    FileCommands.KeptContents(f.commands, s, entry.processedThrough);
    FileEvents.KeptContents(f.events, s, entry.eventAckThrough, entry.eventAckSparse);
    FileEvents.FitsAll(f.events, f.eventTombstones, l);
  }

  /* ---- Compaction cannot be observed ---- */

  ghost predicate SameIntake(a: Result<FileCommands.PreparedFile>, b: Result<FileCommands.PreparedFile>) {
    if a.Err? then b == Result<FileCommands.PreparedFile>.Err(a.error)
    else
      && b.Ok? && b.value.duplicate == a.value.duplicate && b.value.buffered == a.value.buffered
      && AckOf(b.value.record.envelope) == AckOf(a.value.record.envelope)
      && StatusOf(b.value.record) == StatusOf(a.value.record)
      && exists m :: Represents(a.value.file, m) && Represents(b.value.file, m)
  }

  /** Any command envelope gets the same answer before and after compaction of any session, and
      the two journals it leaves stand for the same history. */
  method IntakeUnaffected(f: File, e: CommandEnvelope, s: Name, limit: nat, now: string, ghost l: Ledger)
    returns (before: Result<FileCommands.PreparedFile>, after: Result<FileCommands.PreparedFile>)
    requires Represents(f, l) && LedgerInvariants.CommandInv(l, limit)
    ensures SameIntake(before, after)
  {
    before := FileCommands.PrepareCommand(f, e, limit, now, l);
    var g := Compact(f, s, l);
    after := FileCommands.PrepareCommand(g, e, limit, now, l);
    assert Prepare(l, e, limit).Ok? ==>
      Represents(before.value.file, Prepare(l, e, limit).value.ledger)
      && Represents(after.value.file, Prepare(l, e, limit).value.ledger);
  }

  ghost predicate SameAppend(a: Result<FileEvents.AppendedFile>, b: Result<FileEvents.AppendedFile>) {
    if a.Err? then b == Result<FileEvents.AppendedFile>.Err(a.error)
    else
      && b.Ok? && b.value.duplicate == a.value.duplicate
      && b.value.envelope.(sentAt := "") == a.value.envelope.(sentAt := "")
      && (b.value.envelope != a.value.envelope ==> b.value.duplicate)
      && exists m :: Represents(a.value.file, m) && Represents(b.value.file, m)
  }

  /** Any event append gets the same answer, up to the time printed on an event that was already
      known and whose payload is gone. */
  method AppendUnaffected(f: File, id: EventId, t: Name, event: Event, s: Name, now: string, ghost l: Ledger)
    returns (before: Result<FileEvents.AppendedFile>, after: Result<FileEvents.AppendedFile>)
    requires Represents(f, l) && LedgerInvariants.EventBase(l)
    ensures SameAppend(before, after)
  {
    before := FileEvents.AppendEvent(f, id, t, event, now, l);
    var g := Compact(f, s, l);
    after := FileEvents.AppendEvent(g, id, t, event, now, l);
    ghost var a := Append(l, id, t, event, now);
    if a.Ok? {
      FreshTime(f, l, a.value, now);
      FreshTime(g, l, a.value, now);
      assert Represents(before.value.file, a.value.ledger) && Represents(after.value.file, a.value.ledger);
    }
  }

  lemma FreshTime(f: File, l: Ledger, a: Appended, now: string)
    requires Represents(f, l) && (!a.duplicate ==> a.envelope.eventId !in l.events)
    ensures a.envelope.eventId in EventTombIds(f.eventTombstones) ==> a.duplicate
  {
  }

  ghost predicate SameAck(a: Result<File>, b: Result<File>) {
    if a.Err? then b == Result<File>.Err(a.error)
    else b.Ok? && exists m :: Represents(a.value, m) && Represents(b.value, m)
  }

  /** So does any event acknowledgement. */
  method AckUnaffected(f: File, ack: EventAck, s: Name, ghost l: Ledger)
    returns (before: Result<File>, after: Result<File>)
    requires Represents(f, l) && LedgerInvariants.EventBase(l)
    ensures SameAck(before, after)
  {
    before := FileEvents.AcknowledgeEvent(f, ack, l);
    var g := Compact(f, s, l);
    after := FileEvents.AcknowledgeEvent(g, ack, l);
    assert Acknowledge(l, ack).Ok? ==>
      Represents(before.value, Acknowledge(l, ack).value) && Represents(after.value, Acknowledge(l, ack).value);
  }

  /** And the replay owed to any server state is the very same sequence of events. */
  method ReplayUnaffected(f: File, state: SessionReconcileState, s: Name, ghost l: Ledger)
    returns (before: seq<EventEnvelope>, after: seq<EventEnvelope>)
    requires Represents(f, l) && LedgerInvariants.EventBase(l)
    ensures before == after
  {
    before := FileEvents.ReplayEvents(f, state, l);
    var g := Compact(f, s, l);
    after := FileEvents.ReplayEvents(g, state, l);
    LedgerInvariants.ReplayUnique(l, state, before, after);
  }
}
