/** The composed operations: a command frame run to its end and drained, the reconciliation
    handshake, recovery after a restart. Rewrites succeed here; what failures do to the single
    operations is the subject of Dispatch. */
module Coordination {
  import opened Protocol
  import opened DeliveryLedger
  import opened DurableStore
  import opened Journal
  import opened ArrivalOrder
  import CompletionReports
  import LedgerInvariants
  import Dispatch

  /* ---- Command frames ---- */

  lemma ReadyProcess(st: Sync, id: Name, s: Name, limit: nat, rt: Runtime)
    requires Inv(st.ledger, limit) && Ready(st.ledger, id, s)
    ensures Process(st, st.ledger.commands[id].envelope, limit, rt) == RunToEnd(st, st.ledger, id, rt)
  {
    LedgerInvariants.OwnIdentity(st.ledger, id);
    LedgerInvariants.PrepareEntry(st.ledger, st.ledger.commands[id].envelope, limit);
  }

  /** With rewrites that succeed, accepting a command is the first half of processing it. */
  lemma AcceptSaved(st: Store, e: CommandEnvelope, limit: nat, rt: Runtime, log: seq<CommandEnvelope>)
    requires Inv(st.memory, limit)
    ensures var (next, r) := Accept(st, e, e.command.SessionCancel?, limit, Saved, Saved);
      var processed := Process(Sync(st.memory, log), e, limit, rt);
      && (r.Ok? <==> ValidCommand(e) && Prepare(st.memory, e, limit).Ok?)
      && if r.Ok? && r.value.command.Some? then
        && r.value.command == Some(e) && Dispatch.Started(next.memory, e.commandId)
        && next.memory.commands[e.commandId].envelope == e
        && var (outcome, events, finished) := rt(e);
        processed == Sync(Finish(next.memory, e.commandId, outcome, events, finished), log + [e])
      else processed == Sync(next.memory, log)
  {
    if ValidCommand(e) && Prepare(st.memory, e, limit).Ok? {
      LedgerInvariants.PrepareEntry(st.memory, e, limit);
    }
  }

  lemma CompleteSaved(st: Store, id: Name, outcome: Outcome, events: seq<Event>, now: string)
    requires id in st.memory.commands
    ensures Complete(st, id, outcome, events, now, Saved, Saved).0.memory == Finish(st.memory, id, outcome, events, now)
  {
  }

  /** Accept a command and, if it may run, run it and record its end. */
  method ProcessCommand(j: Journal, e: CommandEnvelope, rt: Runtime, log: seq<CommandEnvelope>, now: string)
    returns (ok: bool, dispatched: seq<CommandEnvelope>)
    requires j.Clear()
    modifies j
    ensures j.Clear()
    ensures ok <==> ValidCommand(e) && Prepare(old(j.store).memory, e, j.limit).Ok?
    ensures Sync(j.store.memory, dispatched) == Process(Sync(old(j.store).memory, log), e, j.limit, rt)
  {
    AcceptSaved(j.store, e, j.limit, rt, log);
    var accepted := j.AcceptCommand(e, e.command.SessionCancel?, now, Saved, Saved);
    if accepted.Err? || accepted.value.command.None? {
      return accepted.Ok?, log;
    }
    var command := accepted.value.command.value;
    var (outcome, events, finished) := rt(command);
    CompleteSaved(j.store, command.commandId, outcome, events, finished);
    var emitted := j.CompleteCommand(command.commandId, outcome, events, finished, Saved, Saved);
    return true, log + [command];
  }

  /** Process released commands until nothing of the session is ready. The loop ends because each
      turn closes a received command. */
  method ProcessReady(j: Journal, s: Name, rt: Runtime, log: seq<CommandEnvelope>, now: string)
    returns (dispatched: seq<CommandEnvelope>)
    requires j.Clear()
    modifies j
    ensures j.Clear() && forall id :: !Ready(j.store.memory, id, s)
    ensures Sync(j.store.memory, dispatched) == Drain(Sync(old(j.store).memory, log), s, rt)
  {
    dispatched := log;
    while true
      invariant j.Clear()
      invariant Drain(Sync(j.store.memory, dispatched), s, rt) == Drain(Sync(old(j.store).memory, log), s, rt)
      decreases ReceivedIds(j.store.memory)
    {
      var next := j.FindReady(s);
      if next.None? {
        break;
      }
      ghost var st := Sync(j.store.memory, dispatched);
      ghost var id := ReadyId(st.ledger, s).value;
      ReadyProcess(st, id, s, j.limit, rt);
      RunCommands(st, st.ledger, id, rt);
      assert id in ReceivedIds(st.ledger);
      var ok;
      ok, dispatched := ProcessCommand(j, next.value, rt, dispatched, now);
    }
  }

  /** One command frame: process it, then drain its session. */
  method ProcessFrame(j: Journal, e: CommandEnvelope, rt: Runtime, log: seq<CommandEnvelope>, now: string)
    returns (dispatched: seq<CommandEnvelope>)
    requires j.Clear()
    modifies j
    ensures j.Clear()
    ensures Sync(j.store.memory, dispatched) == Feed(Sync(old(j.store).memory, log), e, j.limit, rt)
  {
    var ok;
    ok, dispatched := ProcessCommand(j, e, rt, log, now);
    if ok {
      dispatched := ProcessReady(j, e.sessionId, rt, dispatched, now);
    }
  }

  /* ---- Reconciliation ---- */

  method ReplayAll(j: Journal, rs: seq<SessionReconcileState>) returns (frames: seq<seq<EventEnvelope>>)
    requires j.Valid() && ValidSnapshot(rs)
    ensures |frames| == |rs| && forall i | 0 <= i < |rs| :: IsReplay(j.store.memory, rs[i], frames[i])
  {
    frames := [];
    for i := 0 to |rs|
      invariant |frames| == i && forall k | 0 <= k < i :: IsReplay(j.store.memory, rs[k], frames[k])
    {
      assert rs[i] in rs;
      var replay := j.ReplayEvents(rs[i]);
      frames := frames + [replay.value];
    }
  }

  /** Take over the server's snapshot, then replay to each listed session exactly the events
      it is still owed, in rising order. */
  method ReconcileAndReplay(j: Journal, rs: seq<SessionReconcileState>) returns (r: Result<seq<seq<EventEnvelope>>>)
    requires j.Valid()
    modifies j
    ensures j.Valid() && (old(j.Clear()) ==> j.Clear()) && (r.Ok? <==> ValidSnapshot(rs))
    ensures r.Ok? ==> j.store.memory == Reconcile(old(j.store).memory, rs) && |r.value| == |rs|
    ensures r.Ok? ==> forall i | 0 <= i < |rs| :: IsReplay(j.store.memory, rs[i], r.value[i])
  {
    var applied := j.ApplyReconciliation(rs, Saved);
    if applied.Err? {
      return Err(applied.error);
    }
    var frames := ReplayAll(j, rs);
    return Ok(frames);
  }

  /* ---- Recovery ---- */

  datatype Recovery = RecoverySucceeded | RecoveryFailed(reason: string) | RecoveryUnknown

  const STATUS_UNKNOWN := "runtime status unknown"

  function OutcomeOf(r: Recovery): Outcome {
    match r
    case RecoverySucceeded => DispatchSucceeded
    case RecoveryFailed(reason) => DispatchFailed(reason)
    case RecoveryUnknown => Unknown(STATUS_UNKNOWN)
  }

  /** How a command ended, by what the runtime answered. */
  predicate EndedAs(status: Status, answer: Recovery) {
    match answer
    case RecoverySucceeded => status == Terminal(DispatchSucceeded)
    case RecoveryFailed(reason) => status == Terminal(DispatchFailed(reason))
    case RecoveryUnknown => status.Terminal? && status.outcome.Unknown?
  }

  function AnswerTo(l: Ledger, id: Name, ask: CommandEnvelope -> Recovery): Recovery
    requires id in l.commands
  {
    ask(l.commands[id].envelope)
  }

  /** The event that reports an unknown end of the command: fresh, of its session, not to be tried again. */
  predicate ReportedUnknown(m: Ledger, id: Name) {
    && id in m.commands && UnknownEvent(id) in m.events
    && m.events[UnknownEvent(id)].ack.None?
    && m.events[UnknownEvent(id)].envelope.sessionId == m.commands[id].envelope.sessionId
    && CompletionReports.TellsUnknown(m.events[UnknownEvent(id)].envelope.event)
  }

  /** The commands `ids` have ended as the runtime answered. Each unknown end is reported by one event,
      and there are no other new events. */
  ghost predicate Answered(l: Ledger, m: Ledger, ids: set<Name>, ask: CommandEnvelope -> Recovery) {
    && (forall id | id in ids :: id in l.commands && id in m.commands
          && EndedAs(m.commands[id].status, AnswerTo(l, id, ask))
          && (AnswerTo(l, id, ask).RecoveryUnknown? ==> ReportedUnknown(m, id)))
    && (forall x | x in l.events :: x in m.events && m.events[x] == l.events[x])
    && forall x | x in m.events && x !in l.events ::
         x.UnknownEvent? && x.command in ids && AnswerTo(l, x.command, ask).RecoveryUnknown?
  }

  /** `r` is `m` after one started command ended with the answer. */
  ghost predicate EndsAs(m: Ledger, r: Ledger, id: Name, answer: Recovery) {
    && id in m.commands && r.commands.Keys == m.commands.Keys
    && (forall jd | jd in m.commands :: r.commands[jd].envelope == m.commands[jd].envelope)
    && (forall jd | jd in m.commands && jd != id :: r.commands[jd] == m.commands[jd])
    && EndedAs(r.commands[id].status, answer)
    && (forall x | x in m.events :: x in r.events && r.events[x] == m.events[x])
    && r.events.Keys == m.events.Keys + (if answer.RecoveryUnknown? then {UnknownEvent(id)} else {})
    && (answer.RecoveryUnknown? ==> ReportedUnknown(r, id))
  }

  /** A command that ends in recovery reports nothing but an unknown end. */
  lemma RecoveryReports(m: Ledger, id: Name, answer: Recovery, now: string)
    requires id in m.commands
    ensures var es := FinishEvents(m, id, OutcomeOf(answer), [], now);
      && LedgerInvariants.IdsOf(es) == (if answer.RecoveryUnknown? then {UnknownEvent(id)} else {})
      && (answer.RecoveryUnknown? <==> es != [])
      && forall e | e in es ::
           && e.eventId == UnknownEvent(id) && e.sessionId == m.commands[id].envelope.sessionId
           && CompletionReports.TellsUnknown(e.event)
  {
    var s := m.commands[id].envelope.sessionId;
    var es := FinishEvents(m, id, OutcomeOf(answer), [], now);
    CompletionReports.EmittedReports(id, s, LastEventSeq(m, s), [], OutcomeOf(answer), now);
    assert answer.RecoveryUnknown? ==> es == [es[0]];
  }

  lemma FinishAnswers(m: Ledger, id: Name, answer: Recovery, now: string)
    requires LedgerInvariants.Sourced(m) && Dispatch.Started(m, id)
    ensures EndsAs(m, Finish(m, id, OutcomeOf(answer), [], now), id, answer)
  {
    var es := FinishEvents(m, id, OutcomeOf(answer), [], now);
    LedgerInvariants.FinishSourced(m, id, OutcomeOf(answer), [], now);
    LedgerInvariants.FinishContents(m, id, OutcomeOf(answer), [], now);
    RecoveryReports(m, id, answer, now);
    ContentsEnd(m, Finish(m, id, OutcomeOf(answer), [], now), id, answer, es);
  }

  lemma ContentsEnd(m: Ledger, r: Ledger, id: Name, answer: Recovery, es: seq<EventEnvelope>)
    requires id in m.commands && r.commands == m.commands[id := m.commands[id].(status := Terminal(OutcomeOf(answer)))]
    requires r.events.Keys == m.events.Keys + LedgerInvariants.IdsOf(es)
    requires forall x | x in m.events :: r.events[x] == m.events[x]
    requires forall e | e in es :: r.events[e.eventId] == EventEntry(e, None)
    requires LedgerInvariants.IdsOf(es) == if answer.RecoveryUnknown? then {UnknownEvent(id)} else {}
    requires (answer.RecoveryUnknown? <==> es != [])
    requires forall e | e in es ::
      && e.eventId == UnknownEvent(id) && e.sessionId == m.commands[id].envelope.sessionId
      && CompletionReports.TellsUnknown(e.event)
    ensures EndsAs(m, r, id, answer)
  {
    if es != [] {
      assert es[0] in es;
    }
  }

  lemma AnsweredStep(l: Ledger, m: Ledger, r: Ledger, ids: set<Name>, id: Name, ask: CommandEnvelope -> Recovery)
    requires Answered(l, m, ids, ask) && id !in ids && id in l.commands && EndsAs(m, r, id, AnswerTo(l, id, ask))
    ensures Answered(l, r, ids + {id}, ask)
  {
  }

  predicate TouchedBy(l: Ledger, ids: set<Name>, s: Name) {
    exists id | id in ids :: id in l.commands && l.commands[id].envelope.sessionId == s
  }

  /** What finishing the commands `ids`, and nothing else, does to a history. */
  ghost predicate Closed(l: Ledger, m: Ledger, ids: set<Name>) {
    && m.commands.Keys == l.commands.Keys
    && (forall id | id in l.commands ::
          if id in ids then m.commands[id].status.Terminal? && m.commands[id].envelope == l.commands[id].envelope
          else m.commands[id] == l.commands[id])
    && (forall s :: s in m.sessions <==> s in l.sessions || TouchedBy(l, ids, s))
    && (forall s :: !TouchedBy(l, ids, s) ==> Processed(m, s) == Processed(l, s))
  }

  /** `r` is `m` with the one started command `id` finished. */
  ghost predicate Finishes(m: Ledger, r: Ledger, id: Name) {
    && id in m.commands && id in r.commands && r.commands[id].status.Terminal?
    && r.commands == m.commands[id := m.commands[id].(status := r.commands[id].status)]
    && r.sessions.Keys == m.sessions.Keys + {m.commands[id].envelope.sessionId}
    && forall s :: s != m.commands[id].envelope.sessionId ==> Processed(r, s) == Processed(m, s)
  }

  lemma FinishFinishes(m: Ledger, id: Name, outcome: Outcome, events: seq<Event>, now: string, limit: nat)
    requires Inv(m, limit) && Dispatch.Started(m, id)
    ensures Finishes(m, Finish(m, id, outcome, events, now), id)
  {
    LedgerInvariants.FinishCommandInv(m, id, outcome, events, now, limit);
    LedgerInvariants.AddAllFrame(Settle(m, id, outcome), FinishEvents(m, id, outcome, events, now));
  }

  lemma ClosedStep(l: Ledger, m: Ledger, r: Ledger, ids: set<Name>, id: Name)
    requires Closed(l, m, ids) && Finishes(m, r, id)
    ensures Closed(l, r, ids + {id})
  {
    var t := m.commands[id].envelope.sessionId;
    forall s ensures TouchedBy(l, ids + {id}, s) <==> TouchedBy(l, ids, s) || s == t {
      if s == t {
        assert id in ids + {id};
      }
    }
  }

  ghost function StartedIds(l: Ledger): set<Name> {
    set id | id in l.commands && l.commands[id].status.DispatchStarted?
  }

  function IdsFrom(es: seq<CommandEnvelope>, i: nat): set<Name> {
    set k | i <= k < |es| :: es[k].commandId
  }

  /** The records before `i` are closed, those from `i` on are all that is still started. */
  ghost predicate ClosedUpTo(l: Ledger, m: Ledger, records: seq<CommandEnvelope>, i: nat,
                             ask: CommandEnvelope -> Recovery) {
    && Closed(l, m, StartedIds(l) - IdsFrom(records, i)) && Answered(l, m, StartedIds(l) - IdsFrom(records, i), ask)
    && StartedIds(m) == IdsFrom(records, i) && IdsFrom(records, i) <= StartedIds(l)
  }

  lemma CloseStep(l: Ledger, m: Ledger, r: Ledger, records: seq<CommandEnvelope>, i: nat,
                  ask: CommandEnvelope -> Recovery)
    requires i < |records| && ClosedUpTo(l, m, records, i, ask) && Finishes(m, r, records[i].commandId)
    requires Recorded(l, records[i]) && EndsAs(m, r, records[i].commandId, ask(records[i]))
    requires forall k | i < k < |records| :: records[k].commandId != records[i].commandId
    ensures ClosedUpTo(l, r, records, i + 1, ask)
  {
    var id := records[i].commandId;
    assert IdsFrom(records, i) == {id} + IdsFrom(records, i + 1);
    assert StartedIds(l) - IdsFrom(records, i + 1) == (StartedIds(l) - IdsFrom(records, i)) + {id};
    ClosedStep(l, m, r, StartedIds(l) - IdsFrom(records, i), id);
    AnsweredStep(l, m, r, StartedIds(l) - IdsFrom(records, i), id, ask);
    assert StartedIds(r) == StartedIds(m) - {id};
  }

  predicate Recorded(l: Ledger, e: CommandEnvelope) {
    e.commandId in l.commands && l.commands[e.commandId].envelope == e
  }

  lemma NothingClosed(l: Ledger, records: seq<CommandEnvelope>, ask: CommandEnvelope -> Recovery)
    requires forall e | e in records :: Dispatch.Started(l, e.commandId)
    requires forall id :: Dispatch.Started(l, id) ==> exists e | e in records :: e.commandId == id
    ensures ClosedUpTo(l, l, records, 0, ask) && StartedIds(l) == IdsFrom(records, 0)
  {
    forall e | e in records ensures e.commandId in IdsFrom(records, 0) {
      var k :| 0 <= k < |records| && records[k] == e;
    }
    forall id | id in StartedIds(l) ensures id in IdsFrom(records, 0) {
      assert Dispatch.Started(l, id);
    }
    forall id | id in IdsFrom(records, 0) ensures id in StartedIds(l) {
      var k :| 0 <= k < |records| && records[k].commandId == id;
      assert records[k] in records && Dispatch.Started(l, id);
    }
    assert StartedIds(l) == IdsFrom(records, 0);
    assert StartedIds(l) - IdsFrom(records, 0) == {};
  }

  lemma AllClosed(l: Ledger, m: Ledger, records: seq<CommandEnvelope>, ask: CommandEnvelope -> Recovery)
    requires ClosedUpTo(l, m, records, |records|, ask)
    ensures Closed(l, m, StartedIds(l)) && Answered(l, m, StartedIds(l), ask)
  {
    assert IdsFrom(records, |records|) == {};
    assert StartedIds(l) - {} == StartedIds(l);
  }

  /** Close one started command with what the runtime says about it. */
  method CloseOne(j: Journal, ask: CommandEnvelope -> Recovery, now: string,
                  ghost l: Ledger, records: seq<CommandEnvelope>, i: nat)
    requires j.Clear() && i < |records| && ClosedUpTo(l, j.store.memory, records, i, ask) && Recorded(l, records[i])
    requires forall k | i < k < |records| :: records[k].commandId != records[i].commandId
    modifies j
    ensures j.Clear() && ClosedUpTo(l, j.store.memory, records, i + 1, ask)
  {
    var e := records[i];
    assert e.commandId in IdsFrom(records, i);
    ghost var m := j.store.memory;
    FinishFinishes(m, e.commandId, OutcomeOf(ask(e)), [], now, j.limit);
    FinishAnswers(m, e.commandId, ask(e), now);
    CompleteSaved(j.store, e.commandId, OutcomeOf(ask(e)), [], now);
    var emitted := j.CompleteCommand(e.commandId, OutcomeOf(ask(e)), [], now, Saved, Saved);
    CloseStep(l, m, j.store.memory, records, i, ask);
  }

  /** Ask the runtime about every command the journal holds as started, and close each with the
      answer. None of them is dispatched again. */
  method CloseStarted(j: Journal, ask: CommandEnvelope -> Recovery, now: string)
    requires j.Clear()
    modifies j
    ensures j.Clear() && Closed(old(j.store).memory, j.store.memory, StartedIds(old(j.store).memory))
    ensures Answered(old(j.store).memory, j.store.memory, StartedIds(old(j.store).memory), ask)
  {
    ghost var l := j.store.memory;
    var records := j.StartedRecords();
    NothingClosed(l, records, ask);
    var i := 0;
    while i < |records|
      invariant j.Clear() && i <= |records| && ClosedUpTo(l, j.store.memory, records, i, ask)
    {
      assert records[i] in records;
      CloseOne(j, ask, now, l, records, i);
      i := i + 1;
    }
    AllClosed(l, j.store.memory, records, ask);
  }

  lemma NextSaved(st: Store, s: Name, limit: nat)
    requires Inv(st.memory, limit)
    ensures var (next, r) := AcceptNext(st, s, limit, Saved, Saved);
      && r.Ok?
      && match ReadyId(st.memory, s)
         case None => r.value.None? && next == st
         case Some(id) =>
           && r.value.Some? && r.value.value.command == Some(st.memory.commands[id].envelope)
           && next.memory == MarkStarted(st.memory, id)
  {
    match ReadyId(st.memory, s)
    case None =>
    case Some(id) =>
      LedgerInvariants.OwnIdentity(st.memory, id);
      LedgerInvariants.PrepareEntry(st.memory, st.memory.commands[id].envelope, limit);
  }

  /** `commands` were handed out between `l` and `m`, each of them ready in `l`. */
  ghost predicate HandedOut(l: Ledger, m: Ledger, commands: seq<CommandEnvelope>) {
    && m.sessions == l.sessions && m.commands.Keys == l.commands.Keys && m.events == l.events
    && (forall e | e in commands :: Ready(l, e.commandId, e.sessionId) && l.commands[e.commandId].envelope == e)
    && (forall id | id in l.commands ::
          m.commands[id] == if exists e | e in commands :: e.commandId == id
                            then l.commands[id].(status := DispatchStarted) else l.commands[id])
  }

  lemma HandedOutStep(l: Ledger, m: Ledger, commands: seq<CommandEnvelope>, id: Name, s: Name)
    requires LedgerInvariants.Keyed(l) && HandedOut(l, m, commands) && Ready(m, id, s)
    ensures HandedOut(l, MarkStarted(m, id), commands + [m.commands[id].envelope])
    ensures forall jd :: !Ready(MarkStarted(m, id), jd, s)
    ensures forall t, jd :: t != s ==> (Ready(MarkStarted(m, id), jd, t) <==> Ready(m, jd, t))
  {
    forall jd ensures !Ready(MarkStarted(m, id), jd, s) {
      if jd != id && InSlot(m, jd, s, Expected(m, s)) {
        LedgerInvariants.SlotUnique(l, id, jd, s, Expected(l, s));
      }
    }
  }

  /** After visiting all sessions but `todo`, only unvisited sessions have ready commands. */
  ghost predicate Visited(l: Ledger, m: Ledger, todo: set<Name>) {
    forall s, id :: Ready(m, id, s) <==> (s !in l.sessions || s in todo) && Ready(l, id, s)
  }

  lemma VisitStep(l: Ledger, m: Ledger, r: Ledger, todo: set<Name>, s: Name)
    requires Visited(l, m, todo) && s in todo && s in l.sessions
    requires forall id :: !Ready(r, id, s)
    requires forall t, id :: t != s ==> (Ready(r, id, t) <==> Ready(m, id, t))
    ensures Visited(l, r, todo - {s})
  {
  }

  lemma NoneVisited(l: Ledger)
    ensures HandedOut(l, l, []) && Visited(l, l, l.sessions.Keys)
  {
  }

  method ResumeOne(j: Journal, s: Name, now: string, ghost l: Ledger, ghost todo: set<Name>,
                   commands: seq<CommandEnvelope>)
    returns (next: seq<CommandEnvelope>)
    requires j.Clear() && LedgerInvariants.Keyed(l) && HandedOut(l, j.store.memory, commands)
    requires Visited(l, j.store.memory, todo) && s in todo && s in l.sessions
    modifies j
    ensures j.Clear() && HandedOut(l, j.store.memory, next) && Visited(l, j.store.memory, todo - {s})
  {
    ghost var m := j.store.memory;
    NextSaved(j.store, s, j.limit);
    if ReadyId(m, s).Some? {
      HandedOutStep(l, m, commands, ReadyId(m, s).value, s);
    }
    var accepted := j.AcceptNextReady(s, now, Saved, Saved);
    next := commands;
    if accepted.value.Some? && accepted.value.value.command.Some? {
      next := commands + [accepted.value.value.command.value];
    }
    VisitStep(l, m, j.store.memory, todo, s);
  }

  /** Visit the sessions that have an entry and hand out what is ready in each. */
  method ResumeSessions(j: Journal, now: string) returns (commands: seq<CommandEnvelope>)
    requires j.Clear()
    modifies j
    ensures j.Clear() && HandedOut(old(j.store).memory, j.store.memory, commands)
    ensures Visited(old(j.store).memory, j.store.memory, {})
  {
    ghost var l := j.store.memory;
    NoneVisited(l);
    commands := [];
    var todo := j.memory.sessions.Keys;
    assert todo == l.sessions.Keys;
    while todo != {}
      invariant j.Clear() && todo <= l.sessions.Keys
      invariant HandedOut(l, j.store.memory, commands) && Visited(l, j.store.memory, todo)
      decreases todo
    {
      var s :| s in todo;
      commands := ResumeOne(j, s, now, l, todo, commands);
      todo := todo - {s};
    }
  }

  /** A session recovery passes over: the journal has no entry for it, nothing of it was started,
      and its first command has been received. */
  ghost predicate PassedOver(l: Ledger, s: Name) {
    s !in l.sessions && !TouchedBy(l, StartedIds(l), s) && exists id :: Ready(l, id, s)
  }

  /** Such sessions exist: one first command, received and not yet started, is passed over. The
      server's next redelivery of it hands it out. */
  lemma FreshCommandPassedOver(e: CommandEnvelope, limit: nat)
    requires ValidCommand(e) && e.commandSeq == 1
    ensures Prepare(EMPTY, e, limit).Ok? && PassedOver(Prepare(EMPTY, e, limit).value.ledger, e.sessionId)
    ensures var l := Prepare(EMPTY, e, limit).value.ledger;
      Accept(Store(l, l), e, e.command.SessionCancel?, limit, Saved, Saved).1
      == Ok(Acceptance(ProcessResult(AckOf(e), DispatchStarted, true, false), Some(e)))
  {
    var l := Prepare(EMPTY, e, limit).value.ledger;
    assert Ready(l, e.commandId, e.sessionId);
    assert StartedIds(l) == {};
  }

  /** Recovery after a restart. Started commands are closed by asking for their status; the
      commands handed out were all still waiting to start; and a session is left with a ready
      command exactly when recovery passes it over. What was started has ended as the runtime answered. */
  method RecoverForScheduler(j: Journal, ask: CommandEnvelope -> Recovery, now: string)
    returns (commands: seq<CommandEnvelope>)
    requires j.Clear()
    modifies j
    ensures j.Clear()
    ensures forall e | e in commands ::
      && Recorded(old(j.store).memory, e) && !Dispatch.Begun(old(j.store).memory, e.commandId)
      && e.commandSeq == Expected(j.store.memory, e.sessionId)
    ensures forall id :: Dispatch.Started(j.store.memory, id) <==> exists e | e in commands :: e.commandId == id
    ensures forall s :: (exists id :: Ready(j.store.memory, id, s)) <==> PassedOver(old(j.store).memory, s)
    ensures Answered(old(j.store).memory, j.store.memory, StartedIds(old(j.store).memory), ask)
  {
    ghost var l := j.store.memory;
    CloseStarted(j, ask, now);
    ghost var m := j.store.memory;
    commands := ResumeSessions(j, now);
    RecoveryEffect(l, m, j.store.memory, commands);
    StillAnswered(l, m, j.store.memory, commands, ask);
  }

  lemma StillAnswered(l: Ledger, m: Ledger, r: Ledger, commands: seq<CommandEnvelope>,
                      ask: CommandEnvelope -> Recovery)
    requires Answered(l, m, StartedIds(l), ask) && HandedOut(m, r, commands)
    ensures Answered(l, r, StartedIds(l), ask)
  {
    forall id | id in StartedIds(l) ensures r.commands[id] == m.commands[id] {
      assert m.commands[id].status.Terminal?;
    }
  }

  lemma RecoveryEffect(l: Ledger, m: Ledger, r: Ledger, commands: seq<CommandEnvelope>)
    requires Closed(l, m, StartedIds(l)) && HandedOut(m, r, commands)
    requires Visited(m, r, {})
    ensures forall e | e in commands ::
      && Recorded(l, e) && !Dispatch.Begun(l, e.commandId)
      && e.commandSeq == Expected(r, e.sessionId)
    ensures forall id :: Dispatch.Started(r, id) <==> exists e | e in commands :: e.commandId == id
    ensures forall s :: (exists id :: Ready(r, id, s)) <==> PassedOver(l, s)
  {
    forall s ensures (exists id :: Ready(r, id, s)) <==> PassedOver(l, s) {
      if s !in m.sessions {
        forall id ensures Ready(r, id, s) <==> Ready(l, id, s) {
        }
      }
    }
  }
}
