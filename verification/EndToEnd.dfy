/** What every run of the whole system keeps: nothing is recorded that was not allocated, nothing
    is recorded twice or out of order, and no event is lost. */
module EndToEnd {
  import opened Protocol
  import opened DeliveryLedger
  import opened DurableStore
  import opened ServerEvents
  import opened Delivery
  import opened JournalFile
  import Dispatch
  import LedgerInvariants

  /** A journal history and the server agree: what the journal takes as acknowledged the server has
      handled, and what the server recorded is an event of the journal. */
  ghost predicate Agrees(l: Ledger, sv: Server) {
    && LedgerInvariants.EventInv(l)
    && (forall s :: SessionOf(l, s).acked <= Handled(sv, s))
    && (forall id | id in sv.receipts :: id in l.events && l.events[id].envelope == sv.receipts[id].envelope)
  }

  ghost predicate Extends(l: Ledger, m: Ledger) {
    forall id | id in l.events :: id in m.events && m.events[id].envelope == l.events[id].envelope
  }

  /** A frame on the network carries an event of the journal; only of one the server has already
      recorded may it print another time. */
  predicate Known(l: Ledger, sv: Server, e: EventEnvelope) {
    e.eventId in l.events && (l.events[e.eventId].envelope == e || e.eventId in sv.receipts)
  }

  ghost predicate StoreAgrees(st: Store, sv: Server, sent: set<EventEnvelope>) {
    && Agrees(st.memory, sv) && Agrees(st.disk, sv) && Extends(st.memory, st.disk)
    && forall e | e in sent :: Known(st.memory, sv, e)
  }

  predicate Covered(sv: Server, rs: seq<SessionReconcileState>) {
    forall r | r in rs :: AckSet(r.eventAckThrough, r.eventAckSparse) <= Handled(sv, r.sessionId)
  }

  /** Everything the server or a frame in flight claims is covered by the server's ledger. */
  ghost predicate ServerSafe(sv: Server, log: seq<EventEnvelope>, acks: set<EventAck>,
                             snapshots: set<seq<SessionReconcileState>>) {
    && ServerInv(sv) && (forall s :: LogExact(sv, log, s))
    && (forall a | a in acks :: a.eventSeq in Handled(sv, a.sessionId))
    && (forall rs | rs in snapshots :: Covered(sv, rs))
  }

  ghost predicate Safe(sys: System, limit: nat) {
    && Dispatch.Sound(sys.daemon, limit)
    && ServerSafe(sys.server, sys.log, sys.acks, sys.snapshots)
    && StoreAgrees(sys.daemon.store, sys.server, sys.events)
  }

  /* ---- Daemon steps ---- */

  /** However a rewrite ends, memory and disk go on from histories that agree with the server, and
      the disk never falls behind what memory has shown to the network. */
  lemma CommitAgrees(st: Store, next: Ledger, p: Persist, sv: Server, sent: set<EventEnvelope>)
    requires StoreAgrees(st, sv, sent) && Agrees(next, sv) && Extends(st.memory, next)
    ensures StoreAgrees(Commit(st, next, p), sv, sent)
  {
  }

  lemma FrameAgrees(l: Ledger, m: Ledger, sv: Server)
    requires Agrees(l, sv) && m.events == l.events
    requires forall s :: SessionOf(m, s).acked == SessionOf(l, s).acked
    requires forall c | c in l.commands && l.commands[c].status.Terminal? ::
      c in m.commands && m.commands[c].status.Terminal?
    ensures Agrees(m, sv) && Extends(l, m)
  {
    LedgerInvariants.EventFrame(l, m);
  }

  lemma PreparedAgrees(l: Ledger, e: CommandEnvelope, limit: nat, sv: Server)
    requires Agrees(l, sv) && Prepare(l, e, limit).Ok?
    ensures Agrees(Prepare(l, e, limit).value.ledger, sv) && Extends(l, Prepare(l, e, limit).value.ledger)
  {
    FrameAgrees(l, Prepare(l, e, limit).value.ledger, sv);
  }

  lemma StartedAgrees(l: Ledger, id: Name, sv: Server)
    requires Agrees(l, sv) && id in l.commands && l.commands[id].status.Received?
    ensures Agrees(MarkStarted(l, id), sv) && Extends(l, MarkStarted(l, id))
  {
    FrameAgrees(l, MarkStarted(l, id), sv);
  }

  lemma AcceptAgrees(st: Store, e: CommandEnvelope, control: bool, limit: nat, p: Persist, q: Persist,
                     sv: Server, sent: set<EventEnvelope>)
    requires StoreAgrees(st, sv, sent) && LedgerInvariants.CommandInv(st.memory, limit)
    ensures StoreAgrees(Accept(st, e, control, limit, p, q).0, sv, sent)
  {
    if ValidCommand(e) && Prepare(st.memory, e, limit).Ok? {
      var prepared := Prepare(st.memory, e, limit).value;
      PreparedAgrees(st.memory, e, limit, sv);
      CommitAgrees(st, prepared.ledger, p, sv, sent);
      if p.Saved? && HandsOut(prepared, e, control) {
        StartAgrees(Commit(st, prepared.ledger, p), st.memory, e, limit, q, sv, sent);
      }
    }
  }

  lemma StartAgrees(taken: Store, l: Ledger, e: CommandEnvelope, limit: nat, q: Persist, sv: Server,
                    sent: set<EventEnvelope>)
    requires LedgerInvariants.CommandInv(l, limit) && Prepare(l, e, limit).Ok?
    requires taken.memory == Prepare(l, e, limit).value.ledger && Prepare(l, e, limit).value.entry.status.Received?
    requires StoreAgrees(taken, sv, sent)
    ensures e.commandId in taken.memory.commands
    ensures StoreAgrees(Commit(taken, MarkStarted(taken.memory, e.commandId), q), sv, sent)
  {
    LedgerInvariants.PrepareEntry(l, e, limit);
    StartedAgrees(taken.memory, e.commandId, sv);
    CommitAgrees(taken, MarkStarted(taken.memory, e.commandId), q, sv, sent);
  }

  /** A change and the compaction after it, each with its own rewrite. */
  lemma CommitTwice(st: Store, next: Ledger, p: Persist, q: Persist, sv: Server, sent: set<EventEnvelope>)
    requires StoreAgrees(st, sv, sent) && Agrees(next, sv) && Extends(st.memory, next)
    ensures StoreAgrees(Commit(st, next, p), sv, sent)
    ensures p.Saved? ==> StoreAgrees(Commit(Commit(st, next, p), next, q), sv, sent)
  {
  }

  /** A history that extends one the server agrees with, and takes no more as acknowledged than the
      server has handled, agrees too. */
  lemma GrowthAgrees(l: Ledger, m: Ledger, sv: Server)
    requires Agrees(l, sv) && LedgerInvariants.EventInv(m) && Extends(l, m)
    requires forall s :: SessionOf(m, s).acked <= Handled(sv, s)
    ensures Agrees(m, sv)
  {
  }

  lemma FinishExtends(l: Ledger, id: Name, outcome: Outcome, events: seq<Event>, now: string)
    requires LedgerInvariants.Sourced(l) && Dispatch.Started(l, id)
    ensures Extends(l, Finish(l, id, outcome, events, now))
    ensures forall s :: SessionOf(Finish(l, id, outcome, events, now), s).acked == SessionOf(l, s).acked
  {
    LedgerInvariants.FinishSourced(l, id, outcome, events, now);
    LedgerInvariants.FinishContents(l, id, outcome, events, now);
  }

  lemma CompleteAgrees(st: Store, id: Name, outcome: Outcome, events: seq<Event>, now: string, p: Persist, q: Persist,
                       limit: nat, sv: Server, sent: set<EventEnvelope>)
    requires StoreAgrees(st, sv, sent)
    requires LedgerInvariants.CommandInv(st.memory, limit) && Dispatch.Started(st.memory, id)
    ensures StoreAgrees(Complete(st, id, outcome, events, now, p, q).0, sv, sent)
  {
    var r := Finish(st.memory, id, outcome, events, now);
    LedgerInvariants.FinishSourced(st.memory, id, outcome, events, now);
    LedgerInvariants.FinishKeeps(st.memory, id, outcome, events, now, limit);
    FinishExtends(st.memory, id, outcome, events, now);
    GrowthAgrees(st.memory, r, sv);
    CommitTwice(st, r, p, q, sv, sent);
  }

  lemma AppendInv(l: Ledger, id: EventId, s: Name, event: Event, now: string)
    requires LedgerInvariants.EventInv(l) && Append(l, id, s, event, now).Ok? && !LedgerInvariants.Anticipates(l, id)
    ensures LedgerInvariants.EventInv(Append(l, id, s, event, now).value.ledger)
  {
    LedgerInvariants.AppendKeeps(l, id, s, event, now);
  }

  lemma AppendExtends(l: Ledger, id: EventId, s: Name, event: Event, now: string)
    requires Append(l, id, s, event, now).Ok?
    ensures var m := Append(l, id, s, event, now).value.ledger;
      Extends(l, m) && forall t :: SessionOf(m, t).acked == SessionOf(l, t).acked
  {
    LedgerInvariants.AddOne(l, Append(l, id, s, event, now).value.envelope);
  }

  lemma AppendAgrees(st: Store, id: EventId, s: Name, event: Event, now: string, p: Persist,
                     sv: Server, sent: set<EventEnvelope>)
    requires StoreAgrees(st, sv, sent) && !LedgerInvariants.Anticipates(st.memory, id)
    ensures StoreAgrees(AppendEvent(st, id, s, event, now, p).0, sv, sent)
  {
    if Append(st.memory, id, s, event, now).Ok? {
      var m := Append(st.memory, id, s, event, now).value.ledger;
      AppendInv(st.memory, id, s, event, now);
      AppendExtends(st.memory, id, s, event, now);
      GrowthAgrees(st.memory, m, sv);
      CommitAgrees(st, m, p, sv, sent);
    }
  }

  lemma AcknowledgeInv(l: Ledger, ack: EventAck)
    requires LedgerInvariants.EventInv(l) && Acknowledge(l, ack).Ok?
    ensures LedgerInvariants.EventInv(Acknowledge(l, ack).value)
  {
    LedgerInvariants.AcknowledgeKeeps(l, ack);
    LedgerInvariants.AcknowledgeNumbered(l, ack);
  }

  lemma AckExtends(l: Ledger, ack: EventAck)
    requires Acknowledge(l, ack).Ok?
    ensures Extends(l, Acknowledge(l, ack).value)
  {
    LedgerInvariants.AcknowledgeEffect(l, ack);
  }

  lemma AckCovered(l: Ledger, ack: EventAck, sv: Server, s: Name)
    requires SessionOf(l, s).acked <= Handled(sv, s) && ack.eventSeq in Handled(sv, ack.sessionId)
    requires Acknowledge(l, ack).Ok?
    ensures SessionOf(Acknowledge(l, ack).value, s).acked <= Handled(sv, s)
  {
    LedgerInvariants.AcknowledgeEffect(l, ack);
  }

  lemma AcknowledgeAgrees(l: Ledger, ack: EventAck, sv: Server)
    requires Agrees(l, sv) && ack.eventSeq in Handled(sv, ack.sessionId) && Acknowledge(l, ack).Ok?
    ensures Agrees(Acknowledge(l, ack).value, sv) && Extends(l, Acknowledge(l, ack).value)
  {
    AcknowledgeInv(l, ack);
    AckExtends(l, ack);
    forall s ensures SessionOf(Acknowledge(l, ack).value, s).acked <= Handled(sv, s) {
      AckCovered(l, ack, sv, s);
    }
    GrowthAgrees(l, Acknowledge(l, ack).value, sv);
  }

  lemma AckAgrees(st: Store, ack: EventAck, p: Persist, q: Persist, sv: Server, sent: set<EventEnvelope>)
    requires StoreAgrees(st, sv, sent) && ack.eventSeq in Handled(sv, ack.sessionId)
    ensures StoreAgrees(AckEvent(st, ack, p, q).0, sv, sent)
  {
    if Acknowledge(st.memory, ack).Ok? {
      AcknowledgeAgrees(st.memory, ack, sv);
      CommitTwice(st, Acknowledge(st.memory, ack).value, p, q, sv, sent);
    }
  }

  lemma {:induction false} CoveredAcks(sv: Server, rs: seq<SessionReconcileState>, s: Name)
    requires Covered(sv, rs)
    ensures LedgerInvariants.SnapshotAcks(rs, s) <= Handled(sv, s)
  {
    if rs != [] {
      assert rs[|rs| - 1] in rs;
      CoveredAcks(sv, rs[..|rs| - 1], s);
    }
  }

  /** What the server has handled the journal has allocated. */
  lemma HandledAllocated(l: Ledger, sv: Server, s: Name)
    requires Agrees(l, sv) && ServerInv(sv)
    ensures Handled(sv, s) <= EventSeqs(l, s)
    ensures Watermark(sv, s) <= LastEventSeq(l, s)
  {
    forall n | n in Handled(sv, s) ensures n in EventSeqs(l, s) {
      assert HasReceipt(sv, s, n);
      var id :| id in sv.receipts && sv.receipts[id].envelope.sessionId == s && sv.receipts[id].envelope.eventSeq == n;
      LedgerInvariants.SeqPresent(l, id);
    }
    var m := Watermark(sv, s);
    if m > 0 {
      assert m in Handled(sv, s);
      assert m in EventSeqs(l, s) + SessionOf(l, s).acked;
    }
  }

  lemma ReconciledAgrees(l: Ledger, rs: seq<SessionReconcileState>, sv: Server)
    requires Agrees(l, sv) && Covered(sv, rs) && ServerInv(sv)
    ensures Agrees(Reconcile(l, rs), sv) && Extends(l, Reconcile(l, rs))
    ensures forall s :: LastEventSeq(Reconcile(l, rs), s) == LastEventSeq(l, s)
  {
    forall s ensures LedgerInvariants.SnapshotAcks(rs, s) <= Handled(sv, s) <= EventSeqs(l, s) {
      CoveredAcks(sv, rs, s);
      HandledAllocated(l, sv, s);
    }
    LedgerInvariants.ReconcileIsUnion(l, rs);
    LedgerInvariants.ReconcileKeeps(l, rs);
    LedgerInvariants.ReconcileNumbered(l, rs);
  }

  lemma ReconcileAgrees(st: Store, rs: seq<SessionReconcileState>, p: Persist, sv: Server, sent: set<EventEnvelope>)
    requires StoreAgrees(st, sv, sent) && Covered(sv, rs) && ServerInv(sv)
    ensures StoreAgrees(ApplySnapshot(st, rs, p).0, sv, sent)
  {
    ReconciledAgrees(st.memory, rs, sv);
    CommitAgrees(st, Reconcile(st.memory, rs), p, sv, sent);
  }

  lemma DaemonKeeps(sys: System, a: Dispatch.Action, limit: nat)
    requires Safe(sys, limit) && Allowed(sys, a)
    ensures Safe(sys.(daemon := Dispatch.Step(sys.daemon, a, limit)), limit)
  {
    Dispatch.StepKeeps(sys.daemon, a, limit);
    var st, sv, sent := sys.daemon.store, sys.server, sys.events;
    if Dispatch.Enabled(sys.daemon, a) {
      match a
      case AcceptCommand(e, control, p, q) =>
        AcceptAgrees(st, e, control, limit, p, q, sv, sent);
      case AcceptReady(s, p, q) =>
        if ReadyId(st.memory, s).Some? {
          AcceptAgrees(st, st.memory.commands[ReadyId(st.memory, s).value].envelope, false, limit, p, q, sv, sent);
        }
      case CompleteCommand(id, outcome, events, now, p, q) =>
        CompleteAgrees(st, id, outcome, events, now, p, q, limit, sv, sent);
      case Appending(id, s, event, now, p) =>
        AppendAgrees(st, id, s, event, now, p, sv, sent);
      case Acknowledging(ack, p, q) =>
        AckAgrees(st, ack, p, q, sv, sent);
      case Reconciling(rs, p) =>
        ReconcileAgrees(st, rs, p, sv, sent);
      case Restart =>
    }
  }

  /* ---- Network and server steps ---- */

  /** An acknowledged event has its receipt at the server. */
  lemma AckedHasReceipt(l: Ledger, sv: Server, id: EventId)
    requires Agrees(l, sv) && ServerInv(sv) && id in l.events && Acked(l, l.events[id].envelope)
    ensures id in sv.receipts && sv.receipts[id].envelope == l.events[id].envelope
  {
    var e := l.events[id].envelope;
    assert HasReceipt(sv, e.sessionId, e.eventSeq);
    var jd :| jd in sv.receipts && sv.receipts[jd].envelope.sessionId == e.sessionId
              && sv.receipts[jd].envelope.eventSeq == e.eventSeq;
    assert LedgerInvariants.SamePlace(l.events, id, jd);
  }

  /** The server's ledger only grows. */
  ghost predicate ServerGrows(sv: Server, next: Server) {
    && (forall s :: Handled(sv, s) <= Handled(next, s))
    && forall id | id in sv.receipts :: id in next.receipts && next.receipts[id] == sv.receipts[id]
  }

  lemma GrowthKeeps(st: Store, sv: Server, next: Server, sent: set<EventEnvelope>)
    requires StoreAgrees(st, sv, sent) && ServerGrows(sv, next)
    requires forall id | id in next.receipts && id !in sv.receipts ::
      id in st.memory.events && st.memory.events[id].envelope == next.receipts[id].envelope
    ensures StoreAgrees(st, next, sent)
  {
  }

  lemma CoverageGrows(sv: Server, next: Server, acks: set<EventAck>, snapshots: set<seq<SessionReconcileState>>)
    requires ServerGrows(sv, next)
    requires forall a | a in acks :: a.eventSeq in Handled(sv, a.sessionId)
    requires forall rs | rs in snapshots :: Covered(sv, rs)
    ensures forall a | a in acks :: a.eventSeq in Handled(next, a.sessionId)
    ensures forall rs | rs in snapshots :: Covered(next, rs)
  {
  }

  lemma EffectGrows(sv: Server, next: Server, e: EventEnvelope, answer: Answer)
    requires Effect(sv, next, e, answer)
    ensures ServerGrows(sv, next)
    ensures forall id | id in next.receipts && id !in sv.receipts :: id == e.eventId && next.receipts[id].envelope == e
  {
  }

  /** Receiving a frame leaves the server exact. */
  lemma EffectSafe(sv: Server, next: Server, log: seq<EventEnvelope>, acks: set<EventAck>,
                   snapshots: set<seq<SessionReconcileState>>, e: EventEnvelope, answer: Answer)
    requires ServerSafe(sv, log, acks, snapshots) && Effect(sv, next, e, answer)
    ensures ServerSafe(next, Logged(log, e, answer), if answer.Recorded? then acks + {AckFor(answer.receipt)} else acks,
                       snapshots)
  {
    EffectLogs(sv, next, log, e, answer);
    EffectCovers(sv, next, acks, snapshots, e, answer);
  }

  lemma EffectCovers(sv: Server, next: Server, acks: set<EventAck>, snapshots: set<seq<SessionReconcileState>>,
                     e: EventEnvelope, answer: Answer)
    requires Effect(sv, next, e, answer)
    requires forall a | a in acks :: a.eventSeq in Handled(sv, a.sessionId)
    requires forall rs | rs in snapshots :: Covered(sv, rs)
    ensures var more := if answer.Recorded? then acks + {AckFor(answer.receipt)} else acks;
      forall a | a in more :: a.eventSeq in Handled(next, a.sessionId)
    ensures forall rs | rs in snapshots :: Covered(next, rs)
  {
    EffectGrows(sv, next, e, answer);
    CoverageGrows(sv, next, acks, snapshots);
  }

  lemma EffectLogs(sv: Server, next: Server, log: seq<EventEnvelope>, e: EventEnvelope, answer: Answer)
    requires ServerInv(sv) && Effect(sv, next, e, answer) && forall s :: LogExact(sv, log, s)
    ensures ServerInv(next) && forall s :: LogExact(next, Logged(log, e, answer), s)
  {
    EffectKeeps(sv, next, e, answer);
    forall s ensures LogExact(next, Logged(log, e, answer), s) {
      LogKeeps(sv, next, log, e, answer, s);
    }
  }

  /** And the daemon's histories still agree with it. */
  lemma EffectAgrees(st: Store, sv: Server, next: Server, sent: set<EventEnvelope>, e: EventEnvelope, answer: Answer)
    requires StoreAgrees(st, sv, sent) && e in sent && Effect(sv, next, e, answer)
    ensures StoreAgrees(st, next, sent)
  {
    EffectGrows(sv, next, e, answer);
    assert Known(st.memory, sv, e);
    GrowthKeeps(st, sv, next, sent);
  }

  lemma RegisterHandled(sv: Server, next: Server, s: Name)
    requires s !in sv.handled && next == sv.(handled := sv.handled[s := {}])
    ensures forall t :: Handled(next, t) == Handled(sv, t)
  {
  }

  lemma RegisterReceipts(sv: Server, next: Server)
    requires Receipted(sv) && next.receipts == sv.receipts && forall t :: Handled(next, t) == Handled(sv, t)
    ensures Receipted(next)
  {
    forall t, n | n in Handled(next, t) ensures HasReceipt(next, t, n) {
      assert HasReceipt(sv, t, n);
    }
  }

  lemma RegisterInv(sv: Server, next: Server, s: Name)
    requires ServerInv(sv) && s !in sv.handled && next == sv.(handled := sv.handled[s := {}])
    ensures ServerInv(next)
  {
    RegisterHandled(sv, next, s);
    RegisterReceipts(sv, next);
    assert Upto(0) == {};
    assert FirstGap({}, 1) == 1;
  }

  lemma RegisterSafe(sv: Server, next: Server, log: seq<EventEnvelope>, acks: set<EventAck>,
                     snapshots: set<seq<SessionReconcileState>>, s: Name)
    requires ServerSafe(sv, log, acks, snapshots) && s !in sv.handled
    requires next == sv.(handled := sv.handled[s := {}])
    ensures ServerSafe(next, log, acks, snapshots)
  {
    RegisterInv(sv, next, s);
    RegisterHandled(sv, next, s);
    forall t ensures LogExact(next, log, t) {
      SameLog(sv, next, log, t);
    }
    CoverageGrows(sv, next, acks, snapshots);
  }

  lemma SameLog(sv: Server, next: Server, log: seq<EventEnvelope>, s: Name)
    requires LogExact(sv, log, s) && next.receipts == sv.receipts && Handled(next, s) == Handled(sv, s)
    ensures LogExact(next, log, s)
  {
    forall i | 0 <= i < |SessionLog(log, s)| ensures Entry(next, s, SessionLog(log, s)[i], i + 1) {
      assert Entry(sv, s, SessionLog(log, s)[i], i + 1);
    }
  }

  lemma RegisterKeeps(st: Store, sv: Server, log: seq<EventEnvelope>, acks: set<EventAck>,
                      snapshots: set<seq<SessionReconcileState>>, sent: set<EventEnvelope>, s: Name)
    requires ServerSafe(sv, log, acks, snapshots) && StoreAgrees(st, sv, sent) && s !in sv.handled
    ensures var next := sv.(handled := sv.handled[s := {}]);
      ServerSafe(next, log, acks, snapshots) && StoreAgrees(st, next, sent)
  {
    var next := sv.(handled := sv.handled[s := {}]);
    RegisterSafe(sv, next, log, acks, snapshots, s);
    GrowthKeeps(st, sv, next, sent);
  }

  lemma ReceiveKeeps(st: Store, sv: Server, log: seq<EventEnvelope>, acks: set<EventAck>,
                     snapshots: set<seq<SessionReconcileState>>, sent: set<EventEnvelope>,
                     e: EventEnvelope, status: EventAckStatus, reason: Option<string>)
    requires ServerSafe(sv, log, acks, snapshots) && StoreAgrees(st, sv, sent) && e in sent
    ensures var (next, answer) := Record(sv, e, status, reason);
      && ServerSafe(next, Logged(log, e, answer),
                    if answer.Recorded? then acks + {AckFor(answer.receipt)} else acks, snapshots)
      && StoreAgrees(st, next, sent)
  {
    var (next, answer) := Record(sv, e, status, reason);
    RecordEffect(sv, e, status, reason);
    EffectSafe(sv, next, log, acks, snapshots, e, answer);
    EffectAgrees(st, sv, next, sent, e, answer);
  }

  lemma SendKeeps(st: Store, sv: Server, sent: set<EventEnvelope>, e: EventEnvelope)
    requires StoreAgrees(st, sv, sent) && Known(st.memory, sv, e)
    ensures StoreAgrees(st, sv, sent + {e})
  {
  }

  lemma StepKeeps(sys: System, a: Action, limit: nat)
    requires Safe(sys, limit)
    ensures Safe(Step(sys, a, limit), limit)
  {
    match a
    case Daemon(action) =>
      if Allowed(sys, action) {
        DaemonKeeps(sys, action, limit);
      }
    case Send(id) =>
      if id in Memory(sys).events {
        SendKeeps(sys.daemon.store, sys.server, sys.events, Memory(sys).events[id].envelope);
      }
    case SendAgain(id, now) =>
      if id in Memory(sys).events && Acked(Memory(sys), Memory(sys).events[id].envelope) {
        AckedHasReceipt(Memory(sys), sys.server, id);
        SendKeeps(sys.daemon.store, sys.server, sys.events, Memory(sys).events[id].envelope.(sentAt := now));
      }
    case Register(s) =>
      if s !in sys.server.handled {
        RegisterKeeps(sys.daemon.store, sys.server, sys.log, sys.acks, sys.snapshots, sys.events, s);
      }
    case Receive(e, status, reason) =>
      if e in sys.events {
        ReceiveKeeps(sys.daemon.store, sys.server, sys.log, sys.acks, sys.snapshots, sys.events, e, status, reason);
      }
    case Report(rs) =>
  }

  lemma {:induction false} RunSafe(actions: seq<Action>, limit: nat)
    ensures Safe(Run(actions, limit), limit)
  {
    if actions == [] {
      LedgerInvariants.EmptyLedger(limit);
      forall s ensures LastEventSeq(EMPTY, s) == 0 && EventSeqs(EMPTY, s) == {} {
        MaxIs(EventSeqs(EMPTY, s) + SessionOf(EMPTY, s).acked, 0);
      }
    } else {
      RunSafe(actions[..|actions| - 1], limit);
      StepKeeps(Run(actions[..|actions| - 1], limit), actions[|actions| - 1], limit);
    }
  }

  /* ---- Theorems over every run ---- */

  /** The server's log of a session is 1, 2, .., m without gap or repetition, each entry an event
      the daemon allocated and still knows, and m is at most the last number allocated. */
  lemma RecordedInOrder(actions: seq<Action>, limit: nat, s: Name)
    ensures var sys := Run(actions, limit);
      var log := SessionLog(sys.log, s);
      && (forall i | 0 <= i < |log| ::
            && log[i].sessionId == s && log[i].eventSeq == i + 1
            && log[i].eventId in Memory(sys).events && Memory(sys).events[log[i].eventId].envelope == log[i])
      && (forall i, j | 0 <= i < j < |log| :: log[i].eventId != log[j].eventId)
      && Handled(sys.server, s) == Upto(|log|)
      && EventSeqs(Memory(sys), s) == Upto(LastEventSeq(Memory(sys), s))
      && |log| <= LastEventSeq(Memory(sys), s)
  {
    RunSafe(actions, limit);
    var sys := Run(actions, limit);
    var log := SessionLog(sys.log, s);
    HandledAllocated(Memory(sys), sys.server, s);
    assert LogExact(sys.server, sys.log, s);
    forall i | 0 <= i < |log|
      ensures log[i].sessionId == s && log[i].eventSeq == i + 1 && log[i].eventId in sys.server.receipts
              && sys.server.receipts[log[i].eventId].envelope == log[i]
    {
      assert Entry(sys.server, s, log[i], i + 1);
    }
  }

  /** No event is lost: whatever file stands for the memory or the disk of the daemon, each event
      whose payload is gone from it is one the server recorded, with that very payload. */
  lemma BuriedIsRecorded(actions: seq<Action>, limit: nat, f: File, t: EventTombstone)
    requires Represents(f, Memory(Run(actions, limit))) || Represents(f, Disk(Run(actions, limit)))
    requires t in f.eventTombstones
    ensures var sv := Run(actions, limit).server;
      t.eventId in sv.receipts && OfEvent(sv.receipts[t.eventId].envelope) == t.digest
  {
    RunSafe(actions, limit);
    var sys := Run(actions, limit);
    var l := if Represents(f, Memory(sys)) then Memory(sys) else Disk(sys);
    assert EventTombstoneFits(t, l);
    AckedHasReceipt(l, sys.server, t.eventId);
  }

  predicate HasSeq(es: seq<EventEnvelope>, n: nat) {
    exists e | e in es :: e.eventSeq == n
  }

  lemma OwedIsUnrecorded(l: Ledger, sv: Server, r: SessionReconcileState, es: seq<EventEnvelope>)
    requires Agrees(l, sv) && ServerInv(sv) && r.sessionId in sv.handled
    requires AckSet(r.eventAckThrough, r.eventAckSparse) == sv.handled[r.sessionId] && IsReplay(l, r, es)
    ensures forall e | e in es ::
      && Watermark(sv, r.sessionId) < e.eventSeq <= LastEventSeq(l, r.sessionId)
      && e.sessionId == r.sessionId && e.eventId !in sv.receipts
  {
    forall e | e in es
      ensures Watermark(sv, r.sessionId) < e.eventSeq <= LastEventSeq(l, r.sessionId)
              && e.sessionId == r.sessionId && e.eventId !in sv.receipts
    {
      assert Owed(l, r, e.eventId);
      LedgerInvariants.SeqPresent(l, e.eventId);
    }
  }

  lemma UnrecordedIsOwed(l: Ledger, sv: Server, r: SessionReconcileState, es: seq<EventEnvelope>, n: nat)
    requires Agrees(l, sv) && ServerInv(sv) && r.sessionId in sv.handled
    requires AckSet(r.eventAckThrough, r.eventAckSparse) == sv.handled[r.sessionId] && IsReplay(l, r, es)
    requires Watermark(sv, r.sessionId) < n <= LastEventSeq(l, r.sessionId)
    ensures HasSeq(es, n)
  {
    assert n in EventSeqs(l, r.sessionId);
    var id := LedgerInvariants.SeqHolder(l, r.sessionId, n);
    assert Owed(l, r, id);
    assert l.events[id].envelope in es;
  }

  /** An event the daemon still owes has not been recorded, and what it does not owe has been:
      after a snapshot is taken over, the replay is the whole difference. */
  lemma ReplayIsMissing(l: Ledger, sv: Server, r: SessionReconcileState, es: seq<EventEnvelope>)
    requires Agrees(l, sv) && ServerInv(sv) && r.sessionId in sv.handled
    requires AckSet(r.eventAckThrough, r.eventAckSparse) == sv.handled[r.sessionId] && IsReplay(l, r, es)
    ensures var m, n := Watermark(sv, r.sessionId), LastEventSeq(l, r.sessionId);
      && |es| == n - m
      && forall i | 0 <= i < |es| ::
           es[i].sessionId == r.sessionId && es[i].eventSeq == m + 1 + i && es[i].eventId !in sv.receipts
  {
    var m, n := Watermark(sv, r.sessionId), LastEventSeq(l, r.sessionId);
    HandledAllocated(l, sv, r.sessionId);
    OwedIsUnrecorded(l, sv, r, es);
    forall k: nat | m < k <= n ensures HasSeq(es, k) {
      UnrecordedIsOwed(l, sv, r, es, k);
    }
    Consecutive(es, m, n);
  }

  /** A rising list that holds every number from m + 1 to n and no other is exactly that range. */
  lemma {:induction false} Consecutive(es: seq<EventEnvelope>, m: nat, n: nat)
    requires m <= n && AscendingEvents(es)
    requires forall i | 0 <= i < |es| :: m < es[i].eventSeq <= n
    requires forall k: nat | m < k <= n :: HasSeq(es, k)
    ensures |es| == n - m && forall i | 0 <= i < |es| :: es[i].eventSeq == m + 1 + i
  {
    if es == [] {
      var k := m + 1;
      assert !HasSeq(es, k);
    } else {
      var z := |es| - 1;
      LastOf(es, m, n);
      forall k: nat | m < k <= n - 1 ensures HasSeq(es[..z], k) {
        SeqIndex(es, k);
        var i :| 0 <= i < |es| && es[i].eventSeq == k;
        assert es[..z][i] in es[..z];
      }
      Consecutive(es[..z], m, n - 1);
      assert es == es[..z] + [es[z]];
    }
  }

  lemma SeqIndex(es: seq<EventEnvelope>, n: nat)
    requires HasSeq(es, n)
    ensures exists i :: 0 <= i < |es| && es[i].eventSeq == n
  {
    var e :| e in es && e.eventSeq == n;
    var i :| 0 <= i < |es| && es[i] == e;
  }

  lemma LastOf(es: seq<EventEnvelope>, m: nat, n: nat)
    requires es != [] && m <= n && AscendingEvents(es)
    requires forall i | 0 <= i < |es| :: m < es[i].eventSeq <= n
    requires forall k: nat | m < k <= n :: HasSeq(es, k)
    ensures es[|es| - 1].eventSeq == n
  {
    assert HasSeq(es, n);
    SeqIndex(es, n);
  }

  /** What the server decides about an event. */
  type Policy = EventEnvelope -> (EventAckStatus, Option<string>)

  ghost predicate ValidPolicy(decide: Policy) {
    forall e :: ValidDecision(decide(e).0, decide(e).1)
  }

  function RecordAll(sv: Server, es: seq<EventEnvelope>, decide: Policy): Server {
    if es == [] then sv
    else
      var e := es[|es| - 1];
      Record(RecordAll(sv, es[..|es| - 1], decide), e, decide(e).0, decide(e).1).0
  }

  /** Distinct unrecorded events of the session that continue its watermark. */
  ghost predicate Continues(sv: Server, s: Name, es: seq<EventEnvelope>) {
    && (forall i | 0 <= i < |es| ::
          es[i].sessionId == s && es[i].eventSeq == Watermark(sv, s) + 1 + i && es[i].eventId !in sv.receipts)
    && forall i, j | 0 <= i < j < |es| :: es[i].eventId != es[j].eventId
  }

  lemma LastIsFresh(sv: Server, s: Name, es: seq<EventEnvelope>)
    requires Continues(sv, s, es) && es != []
    ensures var z := |es| - 1;
      Continues(sv, s, es[..z]) && es[z].eventId !in sv.receipts.Keys + LedgerInvariants.IdsOf(es[..z])
      && LedgerInvariants.IdsOf(es) == LedgerInvariants.IdsOf(es[..z]) + {es[z].eventId}
  {
    var z := |es| - 1;
    assert es == es[..z] + [es[z]];
  }

  /** Delivered in order, one replay brings the server level with the daemon, whatever it decides
      about each event. */
  lemma {:induction false} ReplayCatchesUp(sv: Server, es: seq<EventEnvelope>, s: Name, decide: Policy)
    requires ServerInv(sv) && s in sv.handled && ValidPolicy(decide) && Continues(sv, s, es)
    ensures var r := RecordAll(sv, es, decide);
      && ServerInv(r) && s in r.handled && Watermark(r, s) == Watermark(sv, s) + |es|
      && r.receipts.Keys == sv.receipts.Keys + LedgerInvariants.IdsOf(es)
  {
    if es != [] {
      var z := |es| - 1;
      LastIsFresh(sv, s, es);
      ReplayCatchesUp(sv, es[..z], s, decide);
      NextRecorded(RecordAll(sv, es[..z], decide), es[z], decide(es[z]).0, decide(es[z]).1);
    }
  }

  lemma RecordFresh(sv: Server, e: EventEnvelope, status: EventAckStatus, reason: Option<string>)
    requires ReceiptsDistinct(sv) && Contiguous(sv) && e.sessionId in sv.handled && ValidDecision(status, reason)
    requires e.eventSeq == Watermark(sv, e.sessionId) + 1 && e.eventId !in sv.receipts
    ensures Fresh(Record(sv, e, status, reason).1)
  {
  }

  lemma NextRecorded(sv: Server, e: EventEnvelope, status: EventAckStatus, reason: Option<string>)
    requires ServerInv(sv) && e.sessionId in sv.handled && ValidDecision(status, reason)
    requires e.eventSeq == Watermark(sv, e.sessionId) + 1 && e.eventId !in sv.receipts
    ensures var r := Record(sv, e, status, reason).0;
      && ServerInv(r) && Watermark(r, e.sessionId) == e.eventSeq
      && r.receipts.Keys == sv.receipts.Keys + {e.eventId}
  {
    RecordFresh(sv, e, status, reason);
    RecordEffect(sv, e, status, reason);
    var (next, answer) := Record(sv, e, status, reason);
    EffectKeeps(sv, next, e, answer);
  }

  lemma OthersKept(sv: Server, e: EventEnvelope, status: EventAckStatus, reason: Option<string>, s: Name)
    requires e.sessionId == s && s in sv.handled
    ensures var r := Record(sv, e, status, reason).0;
      r.handled.Keys == sv.handled.Keys && forall t | t != s :: Handled(r, t) == Handled(sv, t)
  {
  }

  /** Recording events of one session leaves the others alone. */
  lemma {:induction false} OthersAllKept(sv: Server, es: seq<EventEnvelope>, s: Name, decide: Policy)
    requires s in sv.handled && forall i | 0 <= i < |es| :: es[i].sessionId == s
    ensures var r := RecordAll(sv, es, decide);
      r.handled.Keys == sv.handled.Keys && forall t | t != s :: Handled(r, t) == Handled(sv, t)
  {
    if es != [] {
      var z := |es| - 1;
      OthersAllKept(sv, es[..z], s, decide);
      OthersKept(RecordAll(sv, es[..z], decide), es[z], decide(es[z]).0, decide(es[z]).1, s);
    }
  }

  lemma DistinctReplay(l: Ledger, r: SessionReconcileState, es: seq<EventEnvelope>)
    requires IsReplay(l, r, es)
    ensures forall i, j | 0 <= i < j < |es| :: es[i].eventId != es[j].eventId
  {
    forall i | 0 <= i < |es| ensures l.events[es[i].eventId].envelope == es[i] {
      assert es[i] in es;
    }
  }

  /* ---- The exchange after a handshake, as steps of the system ---- */

  ghost function Onward(sys: System, actions: seq<Action>, limit: nat): System {
    if actions == [] then sys else Step(Onward(sys, actions[..|actions| - 1], limit), actions[|actions| - 1], limit)
  }

  lemma OnwardTwo(sys: System, a: Action, b: Action, limit: nat)
    ensures Onward(sys, [a, b], limit) == Step(Step(sys, a, limit), b, limit)
  {
    assert [a, b][..1] == [a] && [a][..0] == [];
    assert Onward(sys, [a], limit) == Step(Onward(sys, [], limit), a, limit);
  }

  lemma {:induction false} OnwardSplits(sys: System, a: seq<Action>, b: seq<Action>, limit: nat)
    ensures Onward(sys, a + b, limit) == Onward(Onward(sys, a, limit), b, limit)
  {
    if b == [] {
      assert a + b == a;
    } else {
      assert (a + b)[..|a + b| - 1] == a + b[..|b| - 1];
      OnwardSplits(sys, a, b[..|b| - 1], limit);
    }
  }

  lemma {:induction false} RunIsOnward(actions: seq<Action>, limit: nat)
    ensures Run(actions, limit) == Onward(START, actions, limit)
  {
    if actions != [] {
      RunIsOnward(actions[..|actions| - 1], limit);
    }
  }

  lemma {:induction false} OnwardSafe(sys: System, actions: seq<Action>, limit: nat)
    requires Safe(sys, limit)
    ensures Safe(Onward(sys, actions, limit), limit)
  {
    if actions != [] {
      OnwardSafe(sys, actions[..|actions| - 1], limit);
      StepKeeps(Onward(sys, actions[..|actions| - 1], limit), actions[|actions| - 1], limit);
    }
  }

  /** Send one event and let the server take it. */
  function Delivering(e: EventEnvelope, decide: Policy): seq<Action> {
    [Send(e.eventId), Receive(e, decide(e).0, decide(e).1)]
  }

  function DeliveringAll(es: seq<EventEnvelope>, decide: Policy): seq<Action> {
    if es == [] then [] else DeliveringAll(es[..|es| - 1], decide) + Delivering(es[|es| - 1], decide)
  }

  function Replaying(replays: seq<seq<EventEnvelope>>, decide: Policy): seq<Action> {
    if replays == [] then []
    else Replaying(replays[..|replays| - 1], decide) + DeliveringAll(replays[|replays| - 1], decide)
  }

  /** The server reports its state, the daemon takes it over, and the replay of each session is
      delivered in order. */
  function Exchange(rs: seq<SessionReconcileState>, replays: seq<seq<EventEnvelope>>, decide: Policy): seq<Action> {
    [Report(rs), Daemon(Dispatch.Reconciling(rs, Saved))] + Replaying(replays, decide)
  }

  lemma DeliveredOne(sys: System, e: EventEnvelope, decide: Policy, limit: nat)
    requires e.eventId in Memory(sys).events && Memory(sys).events[e.eventId].envelope == e
    ensures var next := Onward(sys, Delivering(e, decide), limit);
      next.daemon == sys.daemon && next.server == Record(sys.server, e, decide(e).0, decide(e).1).0
  {
    OnwardTwo(sys, Send(e.eventId), Receive(e, decide(e).0, decide(e).1), limit);
  }

  lemma {:induction false} Delivered(sys: System, es: seq<EventEnvelope>, decide: Policy, limit: nat)
    requires forall e | e in es :: e.eventId in Memory(sys).events && Memory(sys).events[e.eventId].envelope == e
    ensures var next := Onward(sys, DeliveringAll(es, decide), limit);
      next.daemon == sys.daemon && next.server == RecordAll(sys.server, es, decide)
  {
    if es != [] {
      var z := |es| - 1;
      Delivered(sys, es[..z], decide, limit);
      DeliveredOne(Onward(sys, DeliveringAll(es[..z], decide), limit), es[z], decide, limit);
      OnwardSplits(sys, DeliveringAll(es[..z], decide), Delivering(es[z], decide), limit);
    }
  }

  /** The server's report on a session is up to date. */
  predicate Current(sv: Server, r: SessionReconcileState) {
    r.sessionId in sv.handled && AckSet(r.eventAckThrough, r.eventAckSparse) == sv.handled[r.sessionId]
  }

  predicate Level(l: Ledger, sv: Server, s: Name) {
    Handled(sv, s) == EventSeqs(l, s)
  }

  lemma SessionLevel(l: Ledger, sv: Server, r: SessionReconcileState, es: seq<EventEnvelope>, decide: Policy)
    requires Agrees(l, sv) && ServerInv(sv) && ValidPolicy(decide) && Current(sv, r) && IsReplay(l, r, es)
    ensures Level(l, RecordAll(sv, es, decide), r.sessionId)
    ensures forall i | 0 <= i < |es| :: es[i].sessionId == r.sessionId
  {
    var s := r.sessionId;
    ReplayIsMissing(l, sv, r, es);
    DistinctReplay(l, r, es);
    HandledAllocated(l, sv, s);
    ReplayCatchesUp(sv, es, s, decide);
    var after := RecordAll(sv, es, decide);
    assert Watermark(after, s) == LastEventSeq(l, s) && Handled(after, s) == Upto(Watermark(after, s));
  }

  lemma ReplayKnown(l: Ledger, r: SessionReconcileState, es: seq<EventEnvelope>)
    requires IsReplay(l, r, es)
    ensures forall e | e in es :: e.eventId in l.events && l.events[e.eventId].envelope == e
  {
  }

  /** Delivering the replay of one session brings the server level with the daemon in that session and
      leaves every other session alone. */
  lemma OneSession(sys: System, r: SessionReconcileState, es: seq<EventEnvelope>, decide: Policy, limit: nat)
    requires Safe(sys, limit) && ValidPolicy(decide) && Current(sys.server, r) && IsReplay(Memory(sys), r, es)
    ensures var next := Onward(sys, DeliveringAll(es, decide), limit);
      && next.daemon == sys.daemon && next.server.handled.Keys == sys.server.handled.Keys
      && Level(Memory(sys), next.server, r.sessionId)
      && forall t | t != r.sessionId :: Handled(next.server, t) == Handled(sys.server, t)
  {
    SessionLevel(Memory(sys), sys.server, r, es, decide);
    OthersAllKept(sys.server, es, r.sessionId, decide);
    ReplayKnown(Memory(sys), r, es);
    Delivered(sys, es, decide, limit);
  }

  /** What holds when the replays of the first `n` sessions have been delivered. */
  ghost predicate Caught(sys: System, l: Ledger, rs: seq<SessionReconcileState>, n: nat, limit: nat)
    requires n <= |rs|
  {
    && Safe(sys, limit) && Memory(sys) == l
    && (forall i | 0 <= i < n :: Level(l, sys.server, rs[i].sessionId))
    && forall i | n <= i < |rs| :: Current(sys.server, rs[i])
  }

  lemma CaughtNext(sys: System, l: Ledger, rs: seq<SessionReconcileState>, n: nat, es: seq<EventEnvelope>,
                   decide: Policy, limit: nat)
    requires ValidPolicy(decide) && ValidSnapshot(rs) && n < |rs| && Caught(sys, l, rs, n, limit)
    requires IsReplay(l, rs[n], es)
    ensures Caught(Onward(sys, DeliveringAll(es, decide), limit), l, rs, n + 1, limit)
  {
    OneSession(sys, rs[n], es, decide, limit);
    OnwardSafe(sys, DeliveringAll(es, decide), limit);
    var next := Onward(sys, DeliveringAll(es, decide), limit);
    forall i | 0 <= i < |rs| && i != n
      ensures Handled(next.server, rs[i].sessionId) == Handled(sys.server, rs[i].sessionId)
    {
      assert rs[i].sessionId != rs[n].sessionId;
    }
  }

  lemma {:induction false} CaughtAll(sys: System, l: Ledger, rs: seq<SessionReconcileState>,
                                     replays: seq<seq<EventEnvelope>>, decide: Policy, limit: nat)
    requires ValidPolicy(decide) && ValidSnapshot(rs) && |replays| <= |rs| && Caught(sys, l, rs, 0, limit)
    requires forall i | 0 <= i < |replays| :: IsReplay(l, rs[i], replays[i])
    ensures Caught(Onward(sys, Replaying(replays, decide), limit), l, rs, |replays|, limit)
  {
    if replays != [] {
      var z := |replays| - 1;
      CaughtAll(sys, l, rs, replays[..z], decide, limit);
      CaughtNext(Onward(sys, Replaying(replays[..z], decide), limit), l, rs, z, replays[z], decide, limit);
      OnwardSplits(sys, Replaying(replays[..z], decide), DeliveringAll(replays[z], decide), limit);
    }
  }

  lemma Reconciled(sys: System, rs: seq<SessionReconcileState>, limit: nat)
    requires rs in sys.snapshots && ValidSnapshot(rs)
    ensures var next := Step(sys, Daemon(Dispatch.Reconciling(rs, Saved)), limit);
      Memory(next) == Reconcile(Memory(sys), rs) && next.server == sys.server
  {
    var a := Dispatch.Reconciling(rs, Saved);
    assert Allowed(sys, a) && Dispatch.Enabled(sys.daemon, a);
  }

  lemma Reported(sys: System, rs: seq<SessionReconcileState>, limit: nat)
    requires Reports(sys.server, rs)
    ensures Step(sys, Report(rs), limit) == sys.(snapshots := sys.snapshots + {rs})
  {
  }

  lemma TakenOver(sys: System, rs: seq<SessionReconcileState>, limit: nat)
    requires Reports(sys.server, rs)
    ensures var next := Onward(sys, [Report(rs), Daemon(Dispatch.Reconciling(rs, Saved))], limit);
      Memory(next) == Reconcile(Memory(sys), rs) && next.server == sys.server
  {
    OnwardTwo(sys, Report(rs), Daemon(Dispatch.Reconciling(rs, Saved)), limit);
    Reported(sys, rs, limit);
    Reconciled(sys.(snapshots := sys.snapshots + {rs}), rs, limit);
  }

  lemma NoneCaught(sys: System, next: System, rs: seq<SessionReconcileState>, limit: nat)
    requires Safe(next, limit) && Reports(sys.server, rs) && next.server == sys.server
    ensures Caught(next, Memory(next), rs, 0, limit)
  {
    assert forall i | 0 <= i < |rs| :: rs[i] in rs;
  }

  /** From any reachable state: when the server reports where it stands on any of its sessions, the
      daemon takes the report over and the replay it owes is delivered in order, the server has
      recorded, in every session of the report, every event the daemon ever allocated. */
  lemma OneReplaySuffices(actions: seq<Action>, limit: nat, rs: seq<SessionReconcileState>,
                          replays: seq<seq<EventEnvelope>>, decide: Policy)
    requires Reports(Run(actions, limit).server, rs) && ValidPolicy(decide) && |replays| == |rs|
    requires forall i | 0 <= i < |rs| :: IsReplay(Reconcile(Memory(Run(actions, limit)), rs), rs[i], replays[i])
    ensures var before, after := Run(actions, limit), Run(actions + Exchange(rs, replays, decide), limit);
      forall i | 0 <= i < |rs| :: Handled(after.server, rs[i].sessionId) == EventSeqs(Memory(before), rs[i].sessionId)
  {
    var sys, exchange := Run(actions, limit), Exchange(rs, replays, decide);
    var handshake := [Report(rs), Daemon(Dispatch.Reconciling(rs, Saved))];
    RunSafe(actions, limit);
    RunIsOnward(actions, limit);
    RunIsOnward(actions + exchange, limit);
    OnwardSplits(START, actions, exchange, limit);
    OnwardSplits(sys, handshake, Replaying(replays, decide), limit);
    TakenOver(sys, rs, limit);
    OnwardSafe(sys, handshake, limit);
    NoneCaught(sys, Onward(sys, handshake, limit), rs, limit);
    var l := Reconcile(Memory(sys), rs);
    CaughtAll(Onward(sys, handshake, limit), l, rs, replays, decide, limit);
    LedgerInvariants.ReconcileIsUnion(Memory(sys), rs);
    forall i | 0 <= i < |rs| ensures EventSeqs(l, rs[i].sessionId) == EventSeqs(Memory(sys), rs[i].sessionId) {
      LedgerInvariants.SameSeqs(Memory(sys), l, rs[i].sessionId);
    }
  }
}
