/** What every operation of the ledger keeps. */
module LedgerInvariants {
  import opened Protocol
  import opened DeliveryLedger

  /* ---- Commands ---- */

  predicate SameIdentity(commands: map<Name, CommandEntry>, id: Name, jd: Name) {
    id in commands && jd in commands && Related(commands[id].envelope, commands[jd].envelope)
  }

  ghost predicate Keyed(l: Ledger) {
    && (forall id | id in l.commands ::
          l.commands[id].envelope.commandId == id && l.commands[id].envelope.commandSeq >= 1)
    && forall id, jd :: SameIdentity(l.commands, id, jd) ==> id == jd
  }

  /** The processed boundary of every session is its longest terminal prefix. */
  ghost predicate BoundaryExact(l: Ledger) {
    && (forall id | id in l.commands ::
          l.commands[id].envelope.commandSeq <= Processed(l, l.commands[id].envelope.sessionId)
          ==> l.commands[id].status.Terminal?)
    && (forall s, n | 1 <= n <= Processed(l, s) :: Held(l, s, n))
    && forall s :: !TerminalAt(l, s, Expected(l, s))
  }

  /** Cancellations aside, a command under way is the next one of its session, and a finished one is
      at or below the boundary. */
  ghost predicate InOrder(l: Ledger) {
    forall id | id in l.commands && !l.commands[id].envelope.command.SessionCancel? ::
      var n, s := l.commands[id].envelope.commandSeq, l.commands[id].envelope.sessionId;
      && (l.commands[id].status.DispatchStarted? ==> n == Expected(l, s))
      && (l.commands[id].status.Terminal? ==> n <= Processed(l, s))
  }

  ghost predicate GapBounded(l: Ledger, limit: nat) {
    forall s :: |Waiting(l, s)| <= limit
  }

  ghost predicate CommandInv(l: Ledger, limit: nat) {
    Keyed(l) && BoundaryExact(l) && InOrder(l) && GapBounded(l, limit)
  }

  lemma SubsetSize<T>(a: set<T>, b: set<T>)
    requires a <= b
    ensures |a| <= |b|
  {
    assert b == a + (b - a);
  }

  lemma EmptyLedger(limit: nat)
    ensures CommandInv(EMPTY, limit) && EventInv(EMPTY)
  {
    assert forall s :: Waiting(EMPTY, s) == {};
    assert forall s :: SessionOf(EMPTY, s).acked == {};
  }

  lemma SlotUnique(l: Ledger, id: Name, jd: Name, s: Name, n: nat)
    requires Keyed(l) && InSlot(l, id, s, n) && InSlot(l, jd, s, n)
    ensures id == jd
  {
    assert SameIdentity(l.commands, id, jd);
  }

  /** A command of the ledger conflicts with nothing. */
  lemma OwnIdentity(l: Ledger, id: Name)
    requires Keyed(l) && id in l.commands
    ensures !Conflicts(l, l.commands[id].envelope)
  {
    forall jd | jd in l.commands && Related(l.commands[jd].envelope, l.commands[id].envelope) ensures jd == id {
      assert SameIdentity(l.commands, jd, id);
    }
  }

  /** Statuses do not matter to identities. */
  lemma KeyedCarries(l: Ledger, r: Ledger)
    requires Keyed(l) && r.commands.Keys == l.commands.Keys
    requires forall id | id in l.commands :: r.commands[id].envelope == l.commands[id].envelope
    ensures Keyed(r)
  {
    forall id, jd | SameIdentity(r.commands, id, jd) ensures id == jd {
      assert SameIdentity(l.commands, id, jd);
    }
  }

  /** The commands at or below the boundary fill it without gap or repetition, and none of
      them is still open: the branch that reports a sequence below the boundary is never the
      one that answers, because the slot is already held and the identity check comes first. */
  lemma BelowBoundaryConflicts(l: Ledger, limit: nat, e: CommandEnvelope)
    requires CommandInv(l, limit) && e.commandSeq >= 1
    requires e.commandSeq < Expected(l, e.sessionId) && e.commandId !in l.commands
    ensures Conflicts(l, e)
  {
    assert Held(l, e.sessionId, e.commandSeq);
    var id :| InSlot(l, id, e.sessionId, e.commandSeq);
    assert Related(l.commands[id].envelope, e);
  }

  /** What intake answers, and what it changes in the ledger. */
  lemma PrepareEntry(l: Ledger, e: CommandEnvelope, limit: nat)
    requires CommandInv(l, limit) && Prepare(l, e, limit).Ok?
    ensures var p := Prepare(l, e, limit).value;
      && e.commandId in p.ledger.commands && p.ledger.commands[e.commandId] == p.entry
      && p.entry.envelope == e
      && p.ledger.sessions == l.sessions
      && p.ledger.commands == l.commands[e.commandId := p.entry]
      && (forall id | id in l.commands :: id in p.ledger.commands && p.ledger.commands[id] == l.commands[id])
      && (forall s :: Processed(p.ledger, s) == Processed(l, s))
      && (PriorDispatch(p.ledger, e) ==> PriorDispatch(l, e))
      && (p.entry.status.Received? ==>
            && e.commandSeq >= Expected(l, e.sessionId)
            && (e.commandId in l.commands ==> l.commands[e.commandId].status.Received?))
      && p.buffered == (e.commandSeq > Expected(l, e.sessionId))
  {
    if e.commandId in l.commands {
      assert Related(l.commands[e.commandId].envelope, e);
    }
  }

  /** How the places of a session carry over from `l` to a ledger with at least its commands. */
  lemma HeldCarries(l: Ledger, r: Ledger)
    requires forall id | id in l.commands :: id in r.commands && r.commands[id].envelope == l.commands[id].envelope
    ensures forall s, n :: Held(l, s, n) ==> Held(r, s, n)
  {
    forall s, n | Held(l, s, n) ensures Held(r, s, n) {
      var id :| InSlot(l, id, s, n);
      assert InSlot(r, id, s, n);
    }
  }

  lemma TerminalCarriesBack(l: Ledger, r: Ledger, s: Name)
    requires forall id |
      id in r.commands && r.commands[id].envelope.sessionId == s && r.commands[id].status.Terminal? ::
      id in l.commands && l.commands[id] == r.commands[id]
    ensures forall n :: TerminalAt(r, s, n) ==> TerminalAt(l, s, n)
  {
    forall n | TerminalAt(r, s, n) ensures TerminalAt(l, s, n) {
      var id :| InSlot(r, id, s, n) && r.commands[id].status.Terminal?;
      assert InSlot(l, id, s, n);
    }
  }

  /** A step that moves no boundary keeps it exact if it finishes nothing and opens nothing
      at or below it. */
  lemma BoundaryCarries(l: Ledger, r: Ledger)
    requires BoundaryExact(l)
    requires forall s :: Processed(r, s) == Processed(l, s)
    requires forall id | id in l.commands :: id in r.commands && r.commands[id].envelope == l.commands[id].envelope
    requires forall id | id in r.commands && r.commands[id].status.Terminal? ::
      id in l.commands && l.commands[id] == r.commands[id]
    requires forall id | id in r.commands && !r.commands[id].status.Terminal? ::
      r.commands[id].envelope.commandSeq > Processed(l, r.commands[id].envelope.sessionId)
    ensures BoundaryExact(r)
  {
    HeldCarries(l, r);
    forall s ensures !TerminalAt(r, s, Expected(r, s)) {
      TerminalCarriesBack(l, r, s);
      assert !TerminalAt(l, s, Expected(l, s));
    }
  }

  lemma SameWaiting(l: Ledger, r: Ledger)
    requires r.commands.Keys == l.commands.Keys
    requires forall s :: Processed(r, s) == Processed(l, s)
    requires forall id | id in l.commands ::
      && r.commands[id].envelope == l.commands[id].envelope
      && (r.commands[id].status.Terminal? <==> l.commands[id].status.Terminal?)
    ensures forall s :: Waiting(r, s) == Waiting(l, s)
  {
    forall s ensures Waiting(r, s) == Waiting(l, s) {
      assert Expected(r, s) == Expected(l, s);
    }
  }

  lemma OpenNotTerminal(l: Ledger, id: Name, s: Name, n: nat)
    requires Keyed(l) && InSlot(l, id, s, n) && !l.commands[id].status.Terminal?
    ensures !TerminalAt(l, s, n)
  {
    forall jd | InSlot(l, jd, s, n) ensures jd == id {
      SlotUnique(l, id, jd, s, n);
    }
  }

  lemma PrepareKeeps(l: Ledger, e: CommandEnvelope, limit: nat)
    requires CommandInv(l, limit) && e.commandSeq >= 1
    requires Prepare(l, e, limit).Ok?
    ensures CommandInv(Prepare(l, e, limit).value.ledger, limit)
  {
    if e.commandId !in l.commands {
      IntakeKeeps(l, e);
      IntakeGap(l, e, limit);
    }
  }

  lemma IntakeWaiting(l: Ledger, e: CommandEnvelope, s: Name)
    requires e.commandId !in l.commands
    ensures var r := l.(commands := l.commands[e.commandId := CommandEntry(e, Received)]);
      Waiting(r, s)
      == Waiting(l, s) + if s == e.sessionId && e.commandSeq > Expected(l, s) then {e.commandId} else {}
  {
  }

  lemma IntakeGap(l: Ledger, e: CommandEnvelope, limit: nat)
    requires GapBounded(l, limit) && e.commandId !in l.commands
    requires e.commandSeq > Expected(l, e.sessionId) ==> |Waiting(l, e.sessionId)| < limit
    ensures GapBounded(l.(commands := l.commands[e.commandId := CommandEntry(e, Received)]), limit)
  {
    var r := l.(commands := l.commands[e.commandId := CommandEntry(e, Received)]);
    forall s ensures |Waiting(r, s)| <= limit {
      IntakeWaiting(l, e, s);
    }
  }

  lemma IntakeKeeps(l: Ledger, e: CommandEnvelope)
    requires Keyed(l) && BoundaryExact(l) && InOrder(l) && e.commandSeq >= Expected(l, e.sessionId)
    requires e.commandId !in l.commands && !Conflicts(l, e)
    ensures var r := l.(commands := l.commands[e.commandId := CommandEntry(e, Received)]);
      Keyed(r) && BoundaryExact(r) && InOrder(r)
  {
    var r := l.(commands := l.commands[e.commandId := CommandEntry(e, Received)]);
    assert forall s :: SessionOf(r, s) == SessionOf(l, s);
    forall id | id in l.commands
      ensures !Related(l.commands[id].envelope, e) && !Related(e, l.commands[id].envelope)
    {
    }
    forall id, jd | SameIdentity(r.commands, id, jd) ensures id == jd {
      assert id in l.commands && jd in l.commands ==> SameIdentity(l.commands, id, jd);
    }
    BoundaryCarries(l, r);
  }

  /** Marking a command as started keeps the rules when it is next, or a cancellation. */
  lemma StartKeeps(l: Ledger, id: Name, limit: nat)
    requires CommandInv(l, limit) && id in l.commands && l.commands[id].status.Received?
    requires
      || l.commands[id].envelope.commandSeq == Expected(l, l.commands[id].envelope.sessionId)
      || l.commands[id].envelope.command.SessionCancel?
    ensures CommandInv(MarkStarted(l, id), limit)
  {
    var r := MarkStarted(l, id);
    KeyedCarries(l, r);
    BoundaryCarries(l, r);
    SameWaiting(l, r);
  }

  /** Closing a started command runs the boundary on to the new longest terminal prefix. */
  lemma SettleKeeps(l: Ledger, id: Name, outcome: Outcome, limit: nat)
    requires CommandInv(l, limit) && id in l.commands && l.commands[id].status.DispatchStarted?
    ensures CommandInv(Settle(l, id, outcome), limit)
    ensures forall s :: Processed(l, s) <= Processed(Settle(l, id, outcome), s)
  {
    var s := l.commands[id].envelope.sessionId;
    var p := Processed(l, s);
    var closed := l.(commands := l.commands[id := l.commands[id].(status := Terminal(outcome))]);
    var q := Advance(closed, s, p);
    var r := Settle(l, id, outcome);
    assert forall t :: t != s ==> SessionOf(r, t) == SessionOf(l, t);
    assert Processed(r, s) == q;
    KeyedCarries(l, closed);
    KeyedCarries(l, r);
    SettleBoundary(l, id, outcome);
    SettleInOrder(l, id, outcome);
    forall t ensures |Waiting(r, t)| <= limit {
      assert Waiting(r, t) <= Waiting(l, t);
      SubsetSize(Waiting(r, t), Waiting(l, t));
    }
  }

  lemma SettleInOrder(l: Ledger, id: Name, outcome: Outcome)
    requires Keyed(l) && InOrder(l) && id in l.commands && l.commands[id].status.DispatchStarted?
    ensures InOrder(Settle(l, id, outcome))
  {
    var s := l.commands[id].envelope.sessionId;
    var p := Processed(l, s);
    var closed := l.(commands := l.commands[id := l.commands[id].(status := Terminal(outcome))]);
    var r := Settle(l, id, outcome);
    KeyedCarries(l, closed);
    assert forall t :: t != s ==> SessionOf(r, t) == SessionOf(l, t);
    forall jd |
      && jd in r.commands && r.commands[jd].envelope.sessionId == s
      && !r.commands[jd].envelope.command.SessionCancel?
      ensures r.commands[jd].status.DispatchStarted? ==> r.commands[jd].envelope.commandSeq == Expected(r, s)
      ensures r.commands[jd].status.Terminal? ==> r.commands[jd].envelope.commandSeq <= Processed(r, s)
    {
      if r.commands[jd].status.DispatchStarted? {
        OpenNotTerminal(closed, jd, s, p + 1);
      }
      if jd == id {
        assert InSlot(closed, id, s, p + 1) && TerminalAt(closed, s, p + 1);
      }
    }
  }

  lemma SettleBoundary(l: Ledger, id: Name, outcome: Outcome)
    requires Keyed(l) && BoundaryExact(l) && id in l.commands && l.commands[id].status.DispatchStarted?
    ensures BoundaryExact(Settle(l, id, outcome))
  {
    var s := l.commands[id].envelope.sessionId;
    var p := Processed(l, s);
    var closed := l.(commands := l.commands[id := l.commands[id].(status := Terminal(outcome))]);
    var q := Advance(closed, s, p);
    var r := Settle(l, id, outcome);
    assert forall t :: t != s ==> SessionOf(r, t) == SessionOf(l, t);
    assert Processed(r, s) == q;
    forall jd |
      jd in r.commands && r.commands[jd].envelope.commandSeq <= Processed(r, r.commands[jd].envelope.sessionId)
      ensures r.commands[jd].status.Terminal?
    {
      var n := r.commands[jd].envelope.commandSeq;
      if r.commands[jd].envelope.sessionId == s && n > p {
        assert TerminalAt(closed, s, n);
        var kd :| InSlot(closed, kd, s, n) && closed.commands[kd].status.Terminal?;
        assert InSlot(l, kd, s, n) && InSlot(l, jd, s, n);
        SlotUnique(l, jd, kd, s, n);
      }
    }
    HeldCarries(l, r);
    HeldCarries(closed, r);
    forall t, n | 1 <= n <= Processed(r, t) ensures Held(r, t, n) {
      if t == s && n > p {
        assert TerminalAt(closed, s, n);
        assert Held(closed, s, n);
      } else {
        assert Held(l, t, n);
      }
    }
    forall t ensures !TerminalAt(r, t, Expected(r, t)) {
      TerminalCarriesBack(closed, r, t);
      if t == s {
        assert Expected(r, t) == q + 1;
      } else {
        TerminalCarriesBack(l, closed, t);
        assert Expected(r, t) == Expected(l, t);
      }
    }
  }

  /** Nothing that leaves the commands and the boundaries alone can break the rules. */
  lemma FrameKeeps(l: Ledger, r: Ledger, limit: nat)
    requires CommandInv(l, limit) && r.commands == l.commands
    requires forall s :: Processed(r, s) == Processed(l, s)
    ensures CommandInv(r, limit)
  {
    BoundaryCarries(l, r);
    SameWaiting(l, r);
  }

  /** At most one command of a session that is not a cancellation is under way. */
  lemma OneInFlight(l: Ledger, limit: nat, id: Name, jd: Name)
    requires CommandInv(l, limit) && id in l.commands && jd in l.commands
    requires l.commands[id].status.DispatchStarted? && l.commands[jd].status.DispatchStarted?
    requires !l.commands[id].envelope.command.SessionCancel? && !l.commands[jd].envelope.command.SessionCancel?
    requires l.commands[id].envelope.sessionId == l.commands[jd].envelope.sessionId
    ensures id == jd
  {
    assert SameIdentity(l.commands, id, jd);
  }

  /* ---- Events ---- */

  predicate SamePlace(events: map<EventId, EventEntry>, id: EventId, jd: EventId) {
    && id in events && jd in events
    && events[id].envelope.sessionId == events[jd].envelope.sessionId
    && events[id].envelope.eventSeq == events[jd].envelope.eventSeq
  }

  ghost predicate EventKeyed(l: Ledger) {
    && (forall id | id in l.events ::
          l.events[id].envelope.eventId == id && l.events[id].envelope.eventSeq >= 1)
    && forall id, jd :: SamePlace(l.events, id, jd) ==> id == jd
  }

  /** The sequences of a session are exactly 1 up to the last one allocated, and the server
      has acknowledged only allocated ones. */
  ghost predicate Numbered(l: Ledger) {
    && (forall s :: EventSeqs(l, s) == Upto(LastEventSeq(l, s)))
    && (forall s :: SessionOf(l, s).acked <= EventSeqs(l, s))
  }

  ghost predicate AckNoted(l: Ledger) {
    forall id | id in l.events && l.events[id].ack.Some? ::
      l.events[id].envelope.eventSeq in SessionOf(l, l.events[id].envelope.sessionId).acked
  }

  predicate HasFinished(l: Ledger, c: Name) {
    c in l.commands && l.commands[c].status.Terminal?
  }

  /** The id is one the journal forms when a command finishes, and that command has not finished. */
  predicate Anticipates(l: Ledger, id: EventId) {
    match id
    case Given(_) => false
    case RuntimeEvent(c, k) => k >= 1 && !HasFinished(l, c)
    case UnknownEvent(c) => !HasFinished(l, c)
  }

  /** No held event has an id the journal may still form. */
  ghost predicate Sourced(l: Ledger) {
    forall id | id in l.events :: !Anticipates(l, id)
  }

  /** No held event has one of the ids of `es`. */
  predicate Untaken(l: Ledger, es: seq<EventEnvelope>) {
    forall e | e in es :: e.eventId !in l.events
  }

  /** What holds whatever the caller and the server send. */
  ghost predicate EventBase(l: Ledger) {
    EventKeyed(l) && AckNoted(l)
  }

  /** What holds besides when the server acknowledges only sequences the daemon allocated and no caller
      anticipates an id. */
  ghost predicate EventInv(l: Ledger) {
    EventBase(l) && Numbered(l) && Sourced(l)
  }

  lemma SeqPresent(l: Ledger, id: EventId)
    requires id in l.events
    ensures l.events[id].envelope.eventSeq in EventSeqs(l, l.events[id].envelope.sessionId)
  {
  }

  lemma SeqHolder(l: Ledger, s: Name, n: nat) returns (id: EventId)
    requires n in EventSeqs(l, s)
    ensures id in l.events && l.events[id].envelope.sessionId == s && l.events[id].envelope.eventSeq == n
  {
    id :| id in l.events && l.events[id].envelope.sessionId == s && l.events[id].envelope.eventSeq == n;
  }

  /** Appending one event with a new name and the next number keeps the numbering whole. */
  lemma AddKeeps(l: Ledger, e: EventEnvelope)
    requires EventKeyed(l) && AckNoted(l)
    requires e.eventId !in l.events && e.eventSeq == LastEventSeq(l, e.sessionId) + 1
    ensures var r := AddEvents(l, [e]);
      && EventKeyed(r) && AckNoted(r) && (Numbered(l) ==> Numbered(r))
      && forall s :: LastEventSeq(r, s) == if s == e.sessionId then e.eventSeq else LastEventSeq(l, s)
  {
    var r := AddEvents(l, [e]);
    AddKeyed(l, e);
    AddNoted(l, e);
    forall s
      ensures LastEventSeq(r, s) == if s == e.sessionId then e.eventSeq else LastEventSeq(l, s)
      ensures Numbered(l) ==> EventSeqs(r, s) == Upto(LastEventSeq(r, s)) && SessionOf(r, s).acked <= EventSeqs(r, s)
    {
      AddedNumbering(l, e, s);
    }
  }

  lemma AddOne(l: Ledger, e: EventEnvelope)
    ensures AddEvents(l, [e]) == l.(events := l.events[e.eventId := EventEntry(e, None)])
  {
    assert [e][..0] == [];
  }

  lemma AddKeyed(l: Ledger, e: EventEnvelope)
    requires EventKeyed(l)
    requires e.eventId !in l.events && e.eventSeq == LastEventSeq(l, e.sessionId) + 1
    ensures EventKeyed(AddEvents(l, [e]))
  {
    AddOne(l, e);
    forall id | id in l.events && l.events[id].envelope.sessionId == e.sessionId
      ensures l.events[id].envelope.eventSeq < e.eventSeq
    {
      SeqPresent(l, id);
      assert l.events[id].envelope.eventSeq in EventSeqs(l, e.sessionId) + SessionOf(l, e.sessionId).acked;
    }
    forall id, jd | SamePlace(AddEvents(l, [e]).events, id, jd) ensures id == jd {
      assert id in l.events && jd in l.events ==> SamePlace(l.events, id, jd);
    }
  }

  lemma AddNoted(l: Ledger, e: EventEnvelope)
    requires AckNoted(l) && e.eventId !in l.events
    ensures AckNoted(AddEvents(l, [e]))
  {
    AddOne(l, e);
    var r := AddEvents(l, [e]);
    forall id | id in r.events && r.events[id].ack.Some?
      ensures r.events[id].envelope.eventSeq in SessionOf(r, r.events[id].envelope.sessionId).acked
    {
      assert id in l.events && r.events[id] == l.events[id];
    }
  }

  lemma AddedSeqs(l: Ledger, e: EventEnvelope, s: Name)
    requires e.eventId !in l.events
    ensures EventSeqs(AddEvents(l, [e]), s) == EventSeqs(l, s) + if s == e.sessionId then {e.eventSeq} else {}
  {
    var r := AddEvents(l, [e]);
    AddOne(l, e);
    forall n | n in EventSeqs(l, s) ensures n in EventSeqs(r, s) {
      var id := SeqHolder(l, s, n);
      assert id in r.events && r.events[id] == l.events[id];
    }
    assert r.events[e.eventId].envelope == e;
  }

  lemma AddedNumbering(l: Ledger, e: EventEnvelope, s: Name)
    requires e.eventId !in l.events
    requires s == e.sessionId ==> e.eventSeq == LastEventSeq(l, s) + 1
    ensures var r := AddEvents(l, [e]);
      && LastEventSeq(r, s) == (if s == e.sessionId then e.eventSeq else LastEventSeq(l, s))
      && (EventSeqs(l, s) == Upto(LastEventSeq(l, s)) && SessionOf(l, s).acked <= EventSeqs(l, s)
          ==> EventSeqs(r, s) == Upto(LastEventSeq(r, s)) && SessionOf(r, s).acked <= EventSeqs(r, s))
  {
    var r := AddEvents(l, [e]);
    AddOne(l, e);
    AddedSeqs(l, e, s);
    assert SessionOf(r, s) == SessionOf(l, s);
    if s == e.sessionId {
      MaxIs(EventSeqs(r, s) + SessionOf(r, s).acked, e.eventSeq);
    }
  }

  /** A run of fresh events of one session that continues its numbering. */
  ghost predicate Continues(l: Ledger, s: Name, es: seq<EventEnvelope>) {
    && (forall i | 0 <= i < |es| ::
          es[i].sessionId == s && es[i].eventSeq == LastEventSeq(l, s) + i + 1 && es[i].eventId !in l.events)
    && forall i, j | 0 <= i < j < |es| :: es[i].eventId != es[j].eventId
  }

  /** `r` is `l` with the events `es` added, unacknowledged, and nothing else changed. */
  ghost predicate Added(l: Ledger, es: seq<EventEnvelope>, r: Ledger) {
    && r.commands == l.commands && r.sessions == l.sessions
    && r.events.Keys == l.events.Keys + IdsOf(es)
    && (forall id | id in l.events :: r.events[id] == l.events[id])
    && (forall e | e in es :: e.eventId in r.events && r.events[e.eventId] == EventEntry(e, None))
  }

  function IdsOf(es: seq<EventEnvelope>): set<EventId> {
    set e | e in es :: e.eventId
  }

  lemma AddedOne(l: Ledger, es: seq<EventEnvelope>, m: Ledger, e: EventEnvelope)
    requires Added(l, es, m) && e.eventId !in m.events
    ensures Added(l, es + [e], m.(events := m.events[e.eventId := EventEntry(e, None)]))
  {
    assert IdsOf(es + [e]) == IdsOf(es) + {e.eventId};
  }

  /** Adding events only adds: every old entry stays, every new one is there unacknowledged. */
  lemma {:induction false} AddAllContents(l: Ledger, es: seq<EventEnvelope>)
    requires forall i | 0 <= i < |es| :: es[i].eventId !in l.events
    requires forall i, j | 0 <= i < j < |es| :: es[i].eventId != es[j].eventId
    ensures Added(l, es, AddEvents(l, es))
  {
    if es == [] {
      assert IdsOf(es) == {};
    } else {
      var n := |es| - 1;
      AddAllContents(l, es[..n]);
      AddedOne(l, es[..n], AddEvents(l, es[..n]), es[n]);
      assert es == es[..n] + [es[n]];
    }
  }

  lemma {:induction false} AddAllKeeps(l: Ledger, s: Name, es: seq<EventEnvelope>)
    requires EventKeyed(l) && AckNoted(l) && Continues(l, s, es)
    ensures var r := AddEvents(l, es);
      && EventKeyed(r) && AckNoted(r) && (Numbered(l) ==> Numbered(r))
      && LastEventSeq(r, s) == LastEventSeq(l, s) + |es|
  {
    if es != [] {
      var n := |es| - 1;
      AddAllKeeps(l, s, es[..n]);
      AddAllContents(l, es[..n]);
      var m := AddEvents(l, es[..n]);
      AddOne(m, es[n]);
      AddKeeps(m, es[n]);
    }
  }

  /** Unless an id was anticipated, what a command reports when it finishes has ids of its own. */
  lemma SourcedUntaken(l: Ledger, id: Name, s: Name, base: nat, events: seq<Event>, outcome: Outcome, now: string)
    requires Sourced(l) && !HasFinished(l, id)
    ensures Untaken(l, Emitted(id, s, base, events, outcome, now))
  {
    forall e | e in Emitted(id, s, base, events, outcome, now) ensures e.eventId !in l.events {
      assert Anticipates(l, e.eventId);
    }
  }

  lemma EmittedContinues(l: Ledger, id: Name, s: Name, events: seq<Event>, outcome: Outcome, now: string)
    requires Untaken(l, Emitted(id, s, LastEventSeq(l, s), events, outcome, now))
    ensures Continues(l, s, Emitted(id, s, LastEventSeq(l, s), events, outcome, now))
  {
  }

  lemma SettleEvents(l: Ledger, id: Name, outcome: Outcome)
    requires EventBase(l) && id in l.commands && l.commands[id].status.DispatchStarted?
    ensures var r := Settle(l, id, outcome);
      EventBase(r) && (Numbered(l) ==> Numbered(r)) && (Sourced(l) ==> Sourced(r))
    ensures forall s :: LastEventSeq(Settle(l, id, outcome), s) == LastEventSeq(l, s)
  {
    EventFrame(l, Settle(l, id, outcome));
  }

  /** Steps that leave the events and the acknowledged sets alone and undo no completion. */
  lemma EventFrame(l: Ledger, r: Ledger)
    requires EventBase(l) && r.events == l.events
    requires forall s :: SessionOf(r, s).acked == SessionOf(l, s).acked
    requires forall c | c in l.commands && l.commands[c].status.Terminal? ::
      c in r.commands && r.commands[c].status.Terminal?
    ensures EventBase(r) && (Numbered(l) ==> Numbered(r)) && (Sourced(l) ==> Sourced(r))
    ensures forall s :: LastEventSeq(r, s) == LastEventSeq(l, s)
  {
    forall s ensures EventSeqs(r, s) == EventSeqs(l, s) && LastEventSeq(r, s) == LastEventSeq(l, s) {
      assert EventSeqs(r, s) == EventSeqs(l, s);
    }
  }

  lemma FinishContents(l: Ledger, id: Name, outcome: Outcome, events: seq<Event>, now: string)
    requires id in l.commands && Untaken(l, FinishEvents(l, id, outcome, events, now))
    ensures var r := Finish(l, id, outcome, events, now);
      var es := FinishEvents(l, id, outcome, events, now);
      && r.commands == l.commands[id := l.commands[id].(status := Terminal(outcome))]
      && r.sessions == Settle(l, id, outcome).sessions
      && r.events.Keys == l.events.Keys + IdsOf(es)
      && (forall jd | jd in l.events :: r.events[jd] == l.events[jd])
      && (forall e | e in es :: r.events[e.eventId] == EventEntry(e, None))
  {
    EmittedContinues(l, id, l.commands[id].envelope.sessionId, events, outcome, now);
    AddAllContents(Settle(l, id, outcome), FinishEvents(l, id, outcome, events, now));
  }

  lemma FinishSourced(l: Ledger, id: Name, outcome: Outcome, events: seq<Event>, now: string)
    requires Sourced(l) && id in l.commands && l.commands[id].status.DispatchStarted?
    ensures Untaken(l, FinishEvents(l, id, outcome, events, now))
    ensures Sourced(Finish(l, id, outcome, events, now))
  {
    var s := l.commands[id].envelope.sessionId;
    SourcedUntaken(l, id, s, LastEventSeq(l, s), events, outcome, now);
    FinishContents(l, id, outcome, events, now);
    var es := FinishEvents(l, id, outcome, events, now);
    forall x | x in IdsOf(es) ensures x == UnknownEvent(id) || (x.RuntimeEvent? && x.command == id) {
    }
  }

  /** Finishing a started command keeps both halves of the journal's rules and allocates
      exactly the next numbers of its session. */
  lemma FinishKeeps(l: Ledger, id: Name, outcome: Outcome, events: seq<Event>, now: string, limit: nat)
    requires CommandInv(l, limit) && EventBase(l)
    requires id in l.commands && l.commands[id].status.DispatchStarted?
    requires Untaken(l, FinishEvents(l, id, outcome, events, now))
    ensures var r := Finish(l, id, outcome, events, now);
      var s := l.commands[id].envelope.sessionId;
      && CommandInv(r, limit) && EventBase(r) && (Numbered(l) ==> Numbered(r)) && (Sourced(l) ==> Sourced(r))
      && LastEventSeq(r, s) == LastEventSeq(l, s) + |FinishEvents(l, id, outcome, events, now)|
  {
    FinishCommandInv(l, id, outcome, events, now, limit);
    FinishEventInv(l, id, outcome, events, now);
    if Sourced(l) {
      FinishSourced(l, id, outcome, events, now);
    }
  }

  lemma {:induction false} AddAllFrame(l: Ledger, es: seq<EventEnvelope>)
    ensures AddEvents(l, es).commands == l.commands && AddEvents(l, es).sessions == l.sessions
  {
    if es != [] {
      AddAllFrame(l, es[..|es| - 1]);
    }
  }

  lemma FinishCommandInv(l: Ledger, id: Name, outcome: Outcome, events: seq<Event>, now: string, limit: nat)
    requires CommandInv(l, limit)
    requires id in l.commands && l.commands[id].status.DispatchStarted?
    ensures var r := Finish(l, id, outcome, events, now);
      CommandInv(r, limit) && r.commands == l.commands[id := l.commands[id].(status := Terminal(outcome))]
  {
    SettleKeeps(l, id, outcome, limit);
    AddAllFrame(Settle(l, id, outcome), FinishEvents(l, id, outcome, events, now));
    FrameKeeps(Settle(l, id, outcome), Finish(l, id, outcome, events, now), limit);
  }

  lemma FinishEventInv(l: Ledger, id: Name, outcome: Outcome, events: seq<Event>, now: string)
    requires EventBase(l) && id in l.commands && l.commands[id].status.DispatchStarted?
    requires Untaken(l, FinishEvents(l, id, outcome, events, now))
    ensures var r := Finish(l, id, outcome, events, now);
      var s := l.commands[id].envelope.sessionId;
      && EventBase(r) && (Numbered(l) ==> Numbered(r))
      && LastEventSeq(r, s) == LastEventSeq(l, s) + |FinishEvents(l, id, outcome, events, now)|
  {
    var s := l.commands[id].envelope.sessionId;
    SettleEvents(l, id, outcome);
    EmittedContinues(l, id, s, events, outcome, now);
    AddAllKeeps(Settle(l, id, outcome), s, FinishEvents(l, id, outcome, events, now));
  }

  /** An append keeps identities and numbering whatever its id; the ids the journal may still form stay
      free exactly when it takes none of them. */
  lemma AppendKeeps(l: Ledger, id: EventId, s: Name, event: Event, now: string)
    requires EventBase(l) && Append(l, id, s, event, now).Ok?
    ensures var r := Append(l, id, s, event, now).value.ledger;
      && EventBase(r) && (Numbered(l) ==> Numbered(r))
      && (Sourced(l) ==> (Sourced(r) <==> !Anticipates(l, id)))
  {
    if id !in l.events {
      var e := Append(l, id, s, event, now).value.envelope;
      AddKeeps(l, e);
      AddOne(l, e);
      assert id in Append(l, id, s, event, now).value.ledger.events;
    }
  }

  /** A fresh acknowledgement adds exactly its own sequence to the acknowledged set, a
      repeated one adds nothing, and only allocated sequences can be acknowledged. */
  lemma AcknowledgeEffect(l: Ledger, ack: EventAck)
    requires Acknowledge(l, ack).Ok?
    ensures var r := Acknowledge(l, ack).value;
      && r.commands == l.commands
      && ack.eventSeq in EventSeqs(l, ack.sessionId)
      && r.events == l.events[ack.eventId := l.events[ack.eventId].(ack := Some(ack.status))]
      && (forall s :: Processed(r, s) == Processed(l, s))
      && (forall s :: SessionOf(r, s).acked
                   == SessionOf(l, s).acked + if s == ack.sessionId then {ack.eventSeq} else {})
  {
    SeqPresent(l, ack.eventId);
  }

  lemma AcknowledgeNumbered(l: Ledger, ack: EventAck)
    requires Numbered(l) && Acknowledge(l, ack).Ok?
    ensures Numbered(Acknowledge(l, ack).value)
    ensures forall s :: LastEventSeq(Acknowledge(l, ack).value, s) == LastEventSeq(l, s)
  {
    var r := Acknowledge(l, ack).value;
    AcknowledgeEffect(l, ack);
    forall s ensures EventSeqs(r, s) == EventSeqs(l, s) && LastEventSeq(r, s) == LastEventSeq(l, s) {
      SameSeqs(l, r, s);
      assert EventSeqs(r, s) + SessionOf(r, s).acked == EventSeqs(l, s) + SessionOf(l, s).acked;
    }
  }

  lemma AcknowledgeKeeps(l: Ledger, ack: EventAck)
    requires EventBase(l) && Acknowledge(l, ack).Ok?
    ensures EventBase(Acknowledge(l, ack).value) && (Sourced(l) ==> Sourced(Acknowledge(l, ack).value))
  {
    AcknowledgeEffect(l, ack);
    forall id, jd | SamePlace(Acknowledge(l, ack).value.events, id, jd) ensures id == jd {
      assert SamePlace(l.events, id, jd);
    }
  }

  lemma SameSeqs(l: Ledger, r: Ledger, s: Name)
    requires r.events.Keys == l.events.Keys
    requires forall id | id in l.events :: r.events[id].envelope == l.events[id].envelope
    ensures EventSeqs(r, s) == EventSeqs(l, s)
  {
    forall n | n in EventSeqs(l, s) ensures n in EventSeqs(r, s) {
      var id := SeqHolder(l, s, n);
      assert id in r.events;
    }
    forall n | n in EventSeqs(r, s) ensures n in EventSeqs(l, s) {
      var id := SeqHolder(r, s, n);
      assert id in l.events;
    }
  }

  /** What a whole snapshot acknowledges in one session. */
  function SnapshotAcks(rs: seq<SessionReconcileState>, s: Name): set<nat> {
    if rs == [] then {}
    else
      var r := rs[|rs| - 1];
      SnapshotAcks(rs[..|rs| - 1], s)
      + if r.sessionId == s then AckSet(r.eventAckThrough, r.eventAckSparse) else {}
  }

  /** Reconciliation is set union on the acknowledged sequences and nothing else. */
  lemma {:induction false} ReconcileIsUnion(l: Ledger, rs: seq<SessionReconcileState>)
    ensures var r := Reconcile(l, rs);
      && r.commands == l.commands && r.events == l.events
      && (forall s :: Processed(r, s) == Processed(l, s))
      && (forall s :: SessionOf(r, s).acked == SessionOf(l, s).acked + SnapshotAcks(rs, s))
  {
    if rs != [] {
      ReconcileIsUnion(l, rs[..|rs| - 1]);
    }
  }

  lemma ReconcileKeeps(l: Ledger, rs: seq<SessionReconcileState>)
    requires EventBase(l)
    ensures EventBase(Reconcile(l, rs)) && (Sourced(l) ==> Sourced(Reconcile(l, rs)))
  {
    ReconcileIsUnion(l, rs);
  }

  lemma ReconcileNumbered(l: Ledger, rs: seq<SessionReconcileState>)
    requires Numbered(l) && forall s :: SnapshotAcks(rs, s) <= EventSeqs(l, s)
    ensures Numbered(Reconcile(l, rs))
    ensures forall s :: LastEventSeq(Reconcile(l, rs), s) == LastEventSeq(l, s)
  {
    ReconcileIsUnion(l, rs);
    var r := Reconcile(l, rs);
    forall s ensures EventSeqs(r, s) == EventSeqs(l, s) && LastEventSeq(r, s) == LastEventSeq(l, s) {
      SameSeqs(l, r, s);
      assert EventSeqs(r, s) + SessionOf(r, s).acked == EventSeqs(l, s);
      assert EventSeqs(l, s) + SessionOf(l, s).acked == EventSeqs(l, s);
    }
  }

  /** Two replays owed to the same state are the same sequence. */
  lemma {:induction false} ReplayUnique(l: Ledger, r: SessionReconcileState, a: seq<EventEnvelope>,
                                        b: seq<EventEnvelope>)
    requires IsReplay(l, r, a) && IsReplay(l, r, b)
    ensures a == b
  {
    assert forall e :: e in a <==> e in b;
    SortedSame(a, b);
  }

  lemma SomeElement<T>(s: seq<T>)
    ensures s != [] <==> exists e :: e in s
  {
    if s != [] {
      assert s[0] in s;
    }
  }

  lemma {:induction false} SortedSame(a: seq<EventEnvelope>, b: seq<EventEnvelope>)
    requires AscendingEvents(a) && AscendingEvents(b) && forall e :: e in a <==> e in b
    ensures a == b
  {
    SomeElement(a);
    SomeElement(b);
    if a != [] {
      assert a[|a| - 1] in b && b[|b| - 1] in a;
      var n, m := |a| - 1, |b| - 1;
      assert a[n] == b[m];
      forall e | e in a[..n] ensures e in b[..m] {
        assert e in b && e.eventSeq < a[n].eventSeq;
      }
      forall e | e in b[..m] ensures e in a[..n] {
        assert e in a && e.eventSeq < b[m].eventSeq;
      }
      SortedSame(a[..n], b[..m]);
      assert a == a[..n] + [a[n]] && b == b[..m] + [b[m]];
    }
  }
}
