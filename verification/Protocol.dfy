/** Wire values shared by the server and the daemon, and the well-formedness rules a
    frame meets before either side acts on it. Sequences are unbounded naturals. */
module Protocol {
  datatype Option<+T> = None | Some(value: T)

  /** A session, command or message identifier. The non-blank texts are numbered in their order, so that
      they can be compared and there is always a fresh one. */
  newtype Name = n: int | 0 <= n

  /** Event ids: `Given` by the caller of an append, or formatted by the journal from the id
      of the command whose completion caused the event. EventIds shows that the text formats
      behave like these constructors. */
  datatype EventId = Given(name: Name) | RuntimeEvent(command: Name, index: nat) | UnknownEvent(command: Name)

  datatype Command =
    | SessionStart(context: string)
    | SessionCancel(reason: string)
    | SessionResume
    | MessageSend(messageId: Name, content: string)

  datatype CommandEnvelope = CommandEnvelope(
    commandId: Name, sessionId: Name, commandSeq: nat, sentAt: string, command: Command)

  datatype CommandAck = CommandAck(commandId: Name, sessionId: Name, commandSeq: nat)

  datatype Event =
    | SessionStarted(runtimeId: string)
    | AgentMessage(messageId: Name, content: string)
    | AgentActivity(activity: string)
    | RequirementAssessed(assessment: string)
    | SessionCompleted(summary: string)
    | SessionFailed(recoverable: bool, reason: string)

  datatype EventEnvelope = EventEnvelope(
    eventId: EventId, sessionId: Name, eventSeq: nat, sentAt: string, event: Event)

  datatype EventAckStatus = Accepted | Rejected

  datatype EventAck = EventAck(
    eventId: EventId, sessionId: Name, eventSeq: nat, status: EventAckStatus, reason: Option<string>)

  datatype SessionReconcileState = SessionReconcileState(
    sessionId: Name, commandAckThrough: nat, eventAckThrough: nat, eventAckSparse: seq<nat>)

  /** A payload digest covers every byte of the envelope it was taken from, so two digests
      are equal exactly when the envelopes are. */
  datatype Digest = OfCommand(command: CommandEnvelope) | OfEvent(event: EventEnvelope)

  const WHITESPACE: set<char> := {' ', '\t', '\n', '\r'}

  predicate Blank(text: string) {
    forall c | c in text :: c in WHITESPACE
  }

  predicate ValidCommand(e: CommandEnvelope) {
    && !Blank(e.sentAt) && e.commandSeq >= 1
    && match e.command
       case SessionStart(context) => !Blank(context)
       case SessionCancel(reason) => !Blank(reason)
       case SessionResume => true
       case MessageSend(_, content) => !Blank(content)
  }

  predicate ValidEvent(e: EventEnvelope) {
    && !Blank(e.sentAt) && e.eventSeq >= 1
    && match e.event
       case SessionStarted(runtimeId) => !Blank(runtimeId)
       case AgentMessage(_, content) => !Blank(content)
       case AgentActivity(activity) => !Blank(activity)
       case RequirementAssessed(assessment) => !Blank(assessment)
       case SessionCompleted(summary) => !Blank(summary)
       case SessionFailed(_, reason) => !Blank(reason)
  }

  predicate ValidAck(ack: EventAck) {
    && ack.eventSeq >= 1
    && (ack.status.Rejected? ==> ack.reason.Some? && ack.reason.value != "")
    && (ack.status.Accepted? ==> ack.reason.None?)
  }

  predicate Ascending(s: seq<nat>) {
    forall i, j :: 0 <= i < j < |s| ==> s[i] < s[j]
  }

  predicate ValidReconcileState(r: SessionReconcileState) {
    && Ascending(r.eventAckSparse)
    && forall n | n in r.eventAckSparse :: n > r.eventAckThrough
  }

  predicate ValidSnapshot(snapshot: seq<SessionReconcileState>) {
    && (forall r | r in snapshot :: ValidReconcileState(r))
    && forall i, j :: 0 <= i < j < |snapshot| ==> snapshot[i].sessionId != snapshot[j].sessionId
  }

  function MessageIdOf(command: Command): Option<Name> {
    match command
    case MessageSend(messageId, _) => Some(messageId)
    case _ => None
  }
}
