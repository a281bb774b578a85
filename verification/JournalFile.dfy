/** The journal as it is stored: vectors of records, identity tombstones left by compaction,
    and per session a contiguous watermark with a sparse list beside it. `Represents` says
    which ledger a file stands for. */
module JournalFile {
  import opened Protocol
  import opened DeliveryLedger

  datatype CommandState = Received | DispatchStarted | Terminal

  datatype CommandRecord = CommandRecord(
    envelope: CommandEnvelope, digest: Digest, messageId: Option<Name>, state: CommandState, outcome: Option<Outcome>)

  datatype CommandTombstone = CommandTombstone(
    commandId: Name, sessionId: Name, commandSeq: nat, digest: Digest, messageId: Option<Name>, outcome: Outcome)

  datatype EventRecord = EventRecord(
    envelope: EventEnvelope, digest: Digest, acknowledged: bool, acknowledgement: Option<EventAckStatus>)

  datatype EventTombstone = EventTombstone(
    eventId: EventId, sessionId: Name, eventSeq: nat, digest: Digest, identityDigest: Digest,
    acknowledgement: Option<EventAckStatus>)

  datatype SessionJournal = SessionJournal(
    processedThrough: nat, eventAckThrough: nat, eventAckSparse: seq<nat>, serverCommandAckThrough: nat)

  datatype File = File(
    sessions: map<Name, SessionJournal>,
    commands: seq<CommandRecord>,
    commandTombstones: seq<CommandTombstone>,
    events: seq<EventRecord>,
    eventTombstones: seq<EventTombstone>)

  const EMPTY_FILE := File(map[], [], [], [], [])

  const NEW_SESSION := SessionJournal(0, 0, [], 0)

  function SessionEntry(sessions: map<Name, SessionJournal>, s: Name): SessionJournal {
    if s in sessions then sessions[s] else NEW_SESSION
  }

  /* ---- Which ledger a file stands for ---- */

  function OutcomeOf(r: CommandRecord): Outcome {
    if r.outcome.Some? then r.outcome.value else Unknown("terminal outcome missing")
  }

  function StatusOf(r: CommandRecord): Status {
    match r.state
    case Received => Status.Received
    case DispatchStarted => Status.DispatchStarted
    case Terminal => Status.Terminal(OutcomeOf(r))
  }

  predicate RecordFits(r: CommandRecord, l: Ledger) {
    && r.digest == OfCommand(r.envelope) && r.messageId == MessageIdOf(r.envelope.command)
    && (r.state.Terminal? <==> r.outcome.Some?)
    && r.envelope.commandId in l.commands
    && l.commands[r.envelope.commandId] == CommandEntry(r.envelope, StatusOf(r))
  }

  /** A tombstone has lost the command itself, but its digest still pins the whole envelope. */
  predicate TombstoneFits(t: CommandTombstone, l: Ledger) {
    && t.commandId in l.commands
    && t.digest == OfCommand(l.commands[t.commandId].envelope)
    && t.sessionId == l.commands[t.commandId].envelope.sessionId
    && t.commandSeq == l.commands[t.commandId].envelope.commandSeq
    && t.messageId == MessageIdOf(l.commands[t.commandId].envelope.command)
    && l.commands[t.commandId].status == Status.Terminal(t.outcome)
    && t.commandSeq <= Processed(l, t.sessionId)
  }

  function Ids(cs: seq<CommandRecord>): set<Name> {
    set r | r in cs :: r.envelope.commandId
  }

  function TombIds(ts: seq<CommandTombstone>): set<Name> {
    set t | t in ts :: t.commandId
  }

  ghost predicate CommandsRepresent(cs: seq<CommandRecord>, ts: seq<CommandTombstone>, l: Ledger) {
    && (forall i | 0 <= i < |cs| :: RecordFits(cs[i], l))
    && (forall j | 0 <= j < |ts| :: TombstoneFits(ts[j], l))
    && (forall i, j | 0 <= i < j < |cs| :: cs[i].envelope.commandId != cs[j].envelope.commandId)
    && (forall i, j | 0 <= i < j < |ts| :: ts[i].commandId != ts[j].commandId)
    && Ids(cs) !! TombIds(ts)
    && l.commands.Keys == Ids(cs) + TombIds(ts)
  }

  ghost predicate SessionFits(f: SessionJournal, s: Session) {
    && s.processed == f.processedThrough
    && s.acked == AckSet(f.eventAckThrough, f.eventAckSparse)
    && s.serverCommandAck == f.serverCommandAckThrough
    && Ascending(f.eventAckSparse)
    && forall n | n in f.eventAckSparse :: n > f.eventAckThrough
  }

  ghost predicate SessionsRepresent(fs: map<Name, SessionJournal>, ls: map<Name, Session>) {
    fs.Keys == ls.Keys && forall s | s in fs :: SessionFits(fs[s], ls[s])
  }

  function IdentityDigest(e: EventEnvelope): Digest {
    OfEvent(e.(sentAt := ""))
  }

  predicate EventFits(r: EventRecord, l: Ledger) {
    && r.digest == OfEvent(r.envelope)
    && r.envelope.eventId in l.events
    && l.events[r.envelope.eventId] == EventEntry(r.envelope, r.acknowledgement)
    && r.acknowledged == (r.envelope.eventSeq in SessionOf(l, r.envelope.sessionId).acked)
  }

  predicate EventTombstoneFits(t: EventTombstone, l: Ledger) {
    && t.eventId in l.events
    && t.digest == OfEvent(l.events[t.eventId].envelope)
    && t.identityDigest == IdentityDigest(l.events[t.eventId].envelope)
    && t.sessionId == l.events[t.eventId].envelope.sessionId
    && t.eventSeq == l.events[t.eventId].envelope.eventSeq
    && t.acknowledgement == l.events[t.eventId].ack
    && t.eventSeq in SessionOf(l, t.sessionId).acked
  }

  function EventIdsOf(es: seq<EventRecord>): set<EventId> {
    set r | r in es :: r.envelope.eventId
  }

  function EventTombIds(ts: seq<EventTombstone>): set<EventId> {
    set t | t in ts :: t.eventId
  }

  ghost predicate EventsRepresent(es: seq<EventRecord>, ts: seq<EventTombstone>, l: Ledger) {
    && (forall i | 0 <= i < |es| :: EventFits(es[i], l))
    && (forall j | 0 <= j < |ts| :: EventTombstoneFits(ts[j], l))
    && (forall i, j | 0 <= i < j < |es| :: es[i].envelope.eventId != es[j].envelope.eventId)
    && (forall i, j | 0 <= i < j < |ts| :: ts[i].eventId != ts[j].eventId)
    && EventIdsOf(es) !! EventTombIds(ts)
    && l.events.Keys == EventIdsOf(es) + EventTombIds(ts)
  }

  ghost predicate Represents(f: File, l: Ledger) {
    && CommandsRepresent(f.commands, f.commandTombstones, l)
    && SessionsRepresent(f.sessions, l.sessions)
    && EventsRepresent(f.events, f.eventTombstones, l)
  }
}
