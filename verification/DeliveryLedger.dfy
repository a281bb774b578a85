/** What a daemon journal means: every command and event it ever took in, never compacted,
    and per session the processed boundary and the set of event sequences the server has
    acknowledged. The concrete journal file refines this ledger. */
module DeliveryLedger {
  import opened Protocol

  datatype Outcome = DispatchSucceeded | DispatchFailed(reason: string) | Unknown(reason: string)

  datatype Status = Received | DispatchStarted | Terminal(outcome: Outcome)

  datatype CommandEntry = CommandEntry(envelope: CommandEnvelope, status: Status)

  datatype EventEntry = EventEntry(envelope: EventEnvelope, ack: Option<EventAckStatus>)

  datatype Session = Session(processed: nat, acked: set<nat>, serverCommandAck: nat)

  datatype Ledger = Ledger(
    sessions: map<Name, Session>,
    commands: map<Name, CommandEntry>,
    events: map<EventId, EventEntry>)

  datatype JournalError =
    | ProtocolError
    | IdentityConflict
    | GapOverflow(sessionId: Name, limit: nat)
    | IoError

  datatype Result<+T> = Ok(value: T) | Err(error: JournalError)

  const UNKNOWN_MARKER := "execution_outcome_unknown"

  const EMPTY := Ledger(map[], map[], map[])

  function SessionOf(l: Ledger, s: Name): Session {
    if s in l.sessions then l.sessions[s] else Session(0, {}, 0)
  }

  function Processed(l: Ledger, s: Name): nat { SessionOf(l, s).processed }

  function Expected(l: Ledger, s: Name): nat { Processed(l, s) + 1 }

  predicate InSlot(l: Ledger, id: Name, s: Name, n: nat) {
    id in l.commands && l.commands[id].envelope.sessionId == s && l.commands[id].envelope.commandSeq == n
  }

  ghost predicate Held(l: Ledger, s: Name, n: nat) {
    exists id :: InSlot(l, id, s, n)
  }

  ghost predicate TerminalAt(l: Ledger, s: Name, n: nat) {
    exists id :: InSlot(l, id, s, n) && l.commands[id].status.Terminal?
  }

  /* ---- Command intake ---- */

  /** Two envelopes claim a common identity: the command id, the place in the session, or
      the message they carry. */
  predicate Related(a: CommandEnvelope, b: CommandEnvelope) {
    || a.commandId == b.commandId
    || (a.sessionId == b.sessionId && a.commandSeq == b.commandSeq)
    || (a.sessionId == b.sessionId && MessageIdOf(b.command).Some?
        && MessageIdOf(a.command) == MessageIdOf(b.command))
  }

  predicate Conflicts(l: Ledger, e: CommandEnvelope) {
    exists id | id in l.commands :: Related(l.commands[id].envelope, e) && l.commands[id].envelope != e
  }

  /** Commands waiting beyond the next expected sequence of a session. */
  function Waiting(l: Ledger, s: Name): set<Name> {
    set id | id in l.commands && l.commands[id].envelope.sessionId == s
             && l.commands[id].envelope.commandSeq > Expected(l, s) && !l.commands[id].status.Terminal?
  }

  datatype Prepared = Prepared(ledger: Ledger, entry: CommandEntry, duplicate: bool, buffered: bool)

  function Prepare(l: Ledger, e: CommandEnvelope, limit: nat): Result<Prepared> {
    if Conflicts(l, e) then Err(IdentityConflict)
    else if e.commandId in l.commands then
      Ok(Prepared(l, l.commands[e.commandId], true, e.commandSeq > Expected(l, e.sessionId)))
    else if e.commandSeq > Expected(l, e.sessionId) && |Waiting(l, e.sessionId)| >= limit then
      Err(GapOverflow(e.sessionId, limit))
    else if e.commandSeq < Expected(l, e.sessionId) then Err(IdentityConflict)
    else
      var entry := CommandEntry(e, Received);
      Ok(Prepared(l.(commands := l.commands[e.commandId := entry]), entry, false,
                  e.commandSeq > Expected(l, e.sessionId)))
  }

  predicate PriorDispatch(l: Ledger, e: CommandEnvelope) {
    exists id | id in l.commands ::
      && l.commands[id].envelope.sessionId == e.sessionId
      && l.commands[id].envelope.commandSeq < e.commandSeq
      && l.commands[id].status.DispatchStarted?
  }

  /** Whether a prepared command crosses to the runtime now: it is the next one of its
      session, or a cancellation overtaking work that is already running. */
  predicate HandsOut(p: Prepared, e: CommandEnvelope, control: bool) {
    && p.entry.status.Received?
    && (p.buffered ==> control && e.command.SessionCancel? && PriorDispatch(p.ledger, e))
  }

  function MarkStarted(l: Ledger, id: Name): Ledger
    requires id in l.commands
  {
    l.(commands := l.commands[id := l.commands[id].(status := DispatchStarted)])
  }

  predicate Ready(l: Ledger, id: Name, s: Name) {
    InSlot(l, id, s, Expected(l, s)) && l.commands[id].status.Received?
  }

  /** The received command whose turn it is, if there is one. */
  ghost function ReadyId(l: Ledger, s: Name): (r: Option<Name>)
    ensures r.Some? ==> Ready(l, r.value, s)
    ensures r.None? ==> forall id :: !Ready(l, id, s)
  {
    if id :| Ready(l, id, s) then Some(id) else None
  }

  /* ---- Command completion ---- */

  ghost function Above(l: Ledger, p: nat): set<Name> {
    set id | id in l.commands && l.commands[id].envelope.commandSeq > p
  }

  /** The boundary after running over every terminal command that follows `p`. */
  ghost function Advance(l: Ledger, s: Name, p: nat): (q: nat)
    ensures p <= q
    ensures forall n | p < n <= q :: TerminalAt(l, s, n)
    ensures !TerminalAt(l, s, q + 1)
    decreases Above(l, p)
  {
    if TerminalAt(l, s, p + 1) then
      var id :| InSlot(l, id, s, p + 1);
      assert id in Above(l, p) && id !in Above(l, p + 1);
      Advance(l, s, p + 1)
    else p
  }

  function WithProcessed(l: Ledger, s: Name, q: nat): Ledger {
    l.(sessions := l.sessions[s := SessionOf(l, s).(processed := q)])
  }

  /** The reason text of an unknown outcome, without the identifiers printed into it. */
  function UnknownReason(reason: string): string {
    UNKNOWN_MARKER + " " + reason + " automatic_resubmit=false"
  }

  /** The events one completion creates, numbered upwards from `base`. */
  function Emitted(id: Name, s: Name, base: nat, events: seq<Event>, outcome: Outcome, now: string)
    : seq<EventEnvelope>
  {
    seq(|events|, i requires 0 <= i < |events| =>
      EventEnvelope(RuntimeEvent(id, i + 1), s, base + i + 1, now, events[i]))
    + if outcome.Unknown? then
        [EventEnvelope(UnknownEvent(id), s, base + |events| + 1, now,
                       SessionFailed(false, UnknownReason(outcome.reason)))]
      else []
  }

  function AddEvents(l: Ledger, es: seq<EventEnvelope>): Ledger {
    if es == [] then l
    else
      var prior := AddEvents(l, es[..|es| - 1]);
      var e := es[|es| - 1];
      prior.(events := prior.events[e.eventId := EventEntry(e, None)])
  }

  ghost function Settle(l: Ledger, id: Name, outcome: Outcome): Ledger
    requires id in l.commands
  {
    var s := l.commands[id].envelope.sessionId;
    var closed := l.(commands := l.commands[id := l.commands[id].(status := Terminal(outcome))]);
    WithProcessed(closed, s, Advance(closed, s, Processed(l, s)))
  }

  ghost function FinishEvents(l: Ledger, id: Name, outcome: Outcome, events: seq<Event>, now: string)
    : seq<EventEnvelope>
    requires id in l.commands
  {
    var s := l.commands[id].envelope.sessionId;
    Emitted(id, s, LastEventSeq(l, s), events, outcome, now)
  }

  ghost function Finish(l: Ledger, id: Name, outcome: Outcome, events: seq<Event>, now: string): Ledger
    requires id in l.commands
  {
    AddEvents(Settle(l, id, outcome), FinishEvents(l, id, outcome, events, now))
  }

  /* ---- Events ---- */

  function EventSeqs(l: Ledger, s: Name): set<nat> {
    set id | id in l.events && l.events[id].envelope.sessionId == s :: l.events[id].envelope.eventSeq
  }

  predicate IsMax(s: set<nat>, m: nat) {
    m in s && forall n | n in s :: n <= m
  }

  lemma MaxExists(s: set<nat>)
    requires s != {}
    ensures exists m: nat :: IsMax(s, m)
  {
    var n :| n in s;
    if s == {n} {
      assert IsMax(s, n);
    } else {
      MaxExists(s - {n});
      assert s == (s - {n}) + {n};
      var m: nat :| IsMax(s - {n}, m);
      assert IsMax(s, if n > m then n else m);
    }
  }

  ghost function MaxOf(s: set<nat>): (m: nat)
    ensures forall n | n in s :: n <= m
    ensures m in s || (s == {} && m == 0)
  {
    if s == {} then 0
    else
      MaxExists(s);
      var m: nat :| IsMax(s, m);
      m
  }

  lemma MaxIs(s: set<nat>, m: nat)
    requires (forall n | n in s :: n <= m) && (m == 0 || m in s)
    ensures MaxOf(s) == m
  {
  }

  /** The highest event sequence of a session that was ever allocated or acknowledged. */
  ghost function LastEventSeq(l: Ledger, s: Name): nat {
    MaxOf(EventSeqs(l, s) + SessionOf(l, s).acked)
  }

  datatype Appended = Appended(ledger: Ledger, envelope: EventEnvelope, duplicate: bool)

  ghost function Append(l: Ledger, id: EventId, s: Name, event: Event, now: string): Result<Appended> {
    if id in l.events then
      var known := l.events[id].envelope;
      if known.sessionId != s || known.event != event then Err(IdentityConflict)
      else Ok(Appended(l, known, true))
    else
      var e := EventEnvelope(id, s, LastEventSeq(l, s) + 1, now, event);
      if !ValidEvent(e) then Err(ProtocolError) else Ok(Appended(AddEvents(l, [e]), e, false))
  }

  function Acknowledge(l: Ledger, ack: EventAck): Result<Ledger> {
    if !ValidAck(ack) then Err(ProtocolError)
    else if ack.eventId !in l.events then Err(IdentityConflict)
    else
      var entry := l.events[ack.eventId];
      if entry.envelope.sessionId != ack.sessionId || entry.envelope.eventSeq != ack.eventSeq
         || (entry.ack.Some? && entry.ack != Some(ack.status)) then Err(IdentityConflict)
      else
        var noted := l.(events := l.events[ack.eventId := entry.(ack := Some(ack.status))]);
        if ack.eventSeq in SessionOf(l, ack.sessionId).acked then Ok(noted)
        else
          var session := SessionOf(l, ack.sessionId);
          Ok(noted.(sessions := l.sessions[ack.sessionId := session.(acked := session.acked + {ack.eventSeq})]))
  }

  function Upto(k: nat): (r: set<nat>)
    ensures forall n :: n in r <==> 1 <= n <= k
  {
    if k == 0 then {} else Upto(k - 1) + {k}
  }

  /** The sequences a contiguous watermark and a sparse list stand for. */
  function AckSet(through: nat, sparse: seq<nat>): set<nat> {
    Upto(through) + set n | n in sparse
  }

  function ReconcileOne(l: Ledger, r: SessionReconcileState): Ledger {
    var session := SessionOf(l, r.sessionId);
    l.(sessions := l.sessions[r.sessionId := Session(
      session.processed,
      session.acked + AckSet(r.eventAckThrough, r.eventAckSparse),
      if r.commandAckThrough > session.serverCommandAck then r.commandAckThrough else session.serverCommandAck)])
  }

  function Reconcile(l: Ledger, rs: seq<SessionReconcileState>): Ledger {
    if rs == [] then l else ReconcileOne(Reconcile(l, rs[..|rs| - 1]), rs[|rs| - 1])
  }

  /** An event of the session still owed to a server that reports the state `r`. */
  predicate Owed(l: Ledger, r: SessionReconcileState, id: EventId) {
    && id in l.events
    && l.events[id].envelope.sessionId == r.sessionId
    && l.events[id].envelope.eventSeq !in AckSet(r.eventAckThrough, r.eventAckSparse)
    && l.events[id].envelope.eventSeq !in SessionOf(l, r.sessionId).acked
  }

  predicate AscendingEvents(es: seq<EventEnvelope>) {
    forall i, j :: 0 <= i < j < |es| ==> es[i].eventSeq < es[j].eventSeq
  }

  /** `es` is the replay owed to `r`: exactly the owed events, in strictly rising order. */
  ghost predicate IsReplay(l: Ledger, r: SessionReconcileState, es: seq<EventEnvelope>) {
    && AscendingEvents(es)
    && (forall e | e in es :: Owed(l, r, e.eventId) && l.events[e.eventId].envelope == e)
    && (forall id | Owed(l, r, id) :: l.events[id].envelope in es)
  }
}
