/** At-most-once dispatch over every run: redelivery, failed rewrites, restarts, recovery. */
module Dispatch {
  import opened Protocol
  import opened DeliveryLedger
  import opened DurableStore
  import Answers
  import LedgerInvariants

  /** A daemon with its history: the commands handed to the runtime, in order, and the ids of those
      the present process still has under way. */
  datatype Daemon = Daemon(store: Store, handedOut: seq<CommandEnvelope>, inFlight: set<Name>)

  const FRESH := Daemon(Store(EMPTY, EMPTY), [], {})

  datatype Action =
    | AcceptCommand(envelope: CommandEnvelope, control: bool, p: Persist, q: Persist)
    | AcceptReady(session: Name, p: Persist, q: Persist)
    | CompleteCommand(id: Name, outcome: Outcome, events: seq<Event>, now: string, p: Persist, q: Persist)
    | Appending(eventId: EventId, session: Name, event: Event, now: string, p: Persist)
    | Acknowledging(ack: EventAck, p: Persist, q: Persist)
    | Reconciling(snapshot: seq<SessionReconcileState>, p: Persist)
    | Restart

  predicate Started(l: Ledger, id: Name) {
    id in l.commands && l.commands[id].status.DispatchStarted?
  }

  /** A completion comes from work of this process, or, after a restart, from asking the
      runtime about a command the journal holds as started. */
  predicate Enabled(d: Daemon, a: Action) {
    a.CompleteCommand? ==> a.id in d.inFlight || Started(d.store.memory, a.id)
  }

  function HandOut(d: Daemon, st: Store, handed: Option<CommandEnvelope>, failed: bool): Daemon {
    var known := if failed then {} else d.inFlight;
    match handed
    case None => Daemon(st, d.handedOut, known)
    case Some(e) => Daemon(st, d.handedOut + [e], known + {e.commandId})
  }

  /** One operation. A failed rewrite ends the daemon process, so nothing stays in flight. */
  ghost function Step(d: Daemon, a: Action, limit: nat): Daemon {
    if !Enabled(d, a) then d
    else
      match a
      case AcceptCommand(e, control, p, q) =>
        var (st, r) := Accept(d.store, e, control, limit, p, q);
        HandOut(d, st, if r.Ok? then r.value.command else None, r == Err(IoError))
      case AcceptReady(s, p, q) =>
        var (st, r) := AcceptNext(d.store, s, limit, p, q);
        HandOut(d, st, if r.Ok? && r.value.Some? then r.value.value.command else None, r == Err(IoError))
      case CompleteCommand(id, outcome, events, now, p, q) =>
        var (st, r) := Complete(d.store, id, outcome, events, now, p, q);
        HandOut(d.(inFlight := d.inFlight - {id}), st, None, r == Err(IoError))
      case Appending(id, s, event, now, p) =>
        var (st, r) := AppendEvent(d.store, id, s, event, now, p);
        HandOut(d, st, None, r == Err(IoError))
      case Acknowledging(ack, p, q) =>
        var (st, r) := AckEvent(d.store, ack, p, q);
        HandOut(d, st, None, r == Err(IoError))
      case Reconciling(snapshot, p) =>
        var (st, r) := ApplySnapshot(d.store, snapshot, p);
        HandOut(d, st, None, r == Err(IoError))
      case Restart => Daemon(Store(d.store.disk, d.store.disk), d.handedOut, {})
  }

  ghost function Run(d: Daemon, actions: seq<Action>, limit: nat): Daemon {
    if actions == [] then d
    else Step(Run(d, actions[..|actions| - 1], limit), actions[|actions| - 1], limit)
  }

  /** The journal remembers that the command was started, whether or not it has finished. */
  predicate Begun(l: Ledger, id: Name) {
    id in l.commands && !l.commands[id].status.Received?
  }

  /** The journal remembers this very command as started. */
  predicate Logged(l: Ledger, e: CommandEnvelope) {
    Begun(l, e.commandId) && l.commands[e.commandId].envelope == e
  }

  predicate NoDuplicates(es: seq<CommandEnvelope>) {
    forall i, j :: 0 <= i < j < |es| ==> es[i].commandId != es[j].commandId
  }

  predicate Precedes(a: CommandEnvelope, b: CommandEnvelope) {
    a.commandSeq < b.commandSeq
  }

  /** Both are work of one session. */
  predicate SameWork(a: CommandEnvelope, b: CommandEnvelope) {
    a.sessionId == b.sessionId && !a.command.SessionCancel? && !b.command.SessionCancel?
  }

  /** Cancellations aside, the commands of every session appear in the order of their sequence. */
  predicate InSequence(es: seq<CommandEnvelope>) {
    forall i, j :: 0 <= i < j < |es| && SameWork(es[i], es[j]) ==> Precedes(es[i], es[j])
  }

  ghost predicate Good(st: Store, limit: nat) {
    LedgerInvariants.CommandInv(st.memory, limit) && LedgerInvariants.CommandInv(st.disk, limit)
  }

  /** Nothing begun is forgotten. */
  ghost predicate Remembers(l: Ledger, r: Ledger) {
    forall e :: Logged(l, e) ==> Logged(r, e)
  }

  ghost predicate Preserves(st: Store, next: Store, limit: nat) {
    && Good(next, limit)
    && forall e :: Logged(st.memory, e) && Logged(st.disk, e) ==> Logged(next.memory, e) && Logged(next.disk, e)
  }

  /** Whatever a rewrite does, memory and disk both go on from what they held. */
  lemma CommitPreserves(st: Store, next: Ledger, p: Persist, limit: nat)
    requires Good(st, limit) && LedgerInvariants.CommandInv(next, limit) && Remembers(st.memory, next)
    ensures Preserves(st, Commit(st, next, p), limit)
  {
  }

  lemma StartRemembers(l: Ledger, id: Name)
    requires id in l.commands
    ensures Remembers(l, MarkStarted(l, id)) && Started(MarkStarted(l, id), id)
    ensures forall jd :: Started(l, jd) ==> Started(MarkStarted(l, id), jd)
  {
  }

  lemma AcceptPreserves(st: Store, e: CommandEnvelope, control: bool, limit: nat, p: Persist, q: Persist)
    requires Good(st, limit)
    ensures Preserves(st, Accept(st, e, control, limit, p, q).0, limit)
  {
    if ValidCommand(e) && Prepare(st.memory, e, limit).Ok? {
      var prepared := Prepare(st.memory, e, limit).value;
      LedgerInvariants.PrepareKeeps(st.memory, e, limit);
      LedgerInvariants.PrepareEntry(st.memory, e, limit);
      CommitPreserves(st, prepared.ledger, p, limit);
      var taken := Commit(st, prepared.ledger, p);
      if p.Saved? && HandsOut(prepared, e, control) {
        LedgerInvariants.StartKeeps(prepared.ledger, e.commandId, limit);
        StartRemembers(taken.memory, e.commandId);
        CommitPreserves(taken, MarkStarted(taken.memory, e.commandId), q, limit);
      }
    }
  }

  /** The start of a command is on disk before the command is handed out, and only a command
      that was not yet begun is. Its sequence is the next one of its session, unless it is a
      cancellation overtaking a started command. */
  lemma AcceptHandsOut(st: Store, e: CommandEnvelope, control: bool, limit: nat, p: Persist, q: Persist)
    requires Good(st, limit)
    ensures var (next, r) := Accept(st, e, control, limit, p, q);
      && (r.Ok? ==> forall id :: Started(st.memory, id) ==> Started(next.memory, id))
      && (r.Ok? && r.value.command.Some? ==>
            && r.value.command == Some(e) && Logged(next.memory, e) && Logged(next.disk, e)
            && !Begun(st.memory, e.commandId)
            && Started(next.memory, e.commandId) && Started(next.disk, e.commandId)
            && (e.commandSeq == Expected(st.memory, e.sessionId)
                || (e.command.SessionCancel? && PriorDispatch(st.memory, e))))
  {
    if ValidCommand(e) && Prepare(st.memory, e, limit).Ok? {
      var prepared := Prepare(st.memory, e, limit).value;
      LedgerInvariants.PrepareEntry(st.memory, e, limit);
      assert forall id :: Started(st.memory, id) ==> Started(prepared.ledger, id);
      StartRemembers(prepared.ledger, e.commandId);
    }
  }

  lemma NextHandsOut(st: Store, s: Name, limit: nat, p: Persist, q: Persist)
    requires Good(st, limit)
    ensures var (next, r) := AcceptNext(st, s, limit, p, q);
      && Preserves(st, next, limit)
      && (r.Ok? ==> forall id :: Started(st.memory, id) ==> Started(next.memory, id))
      && (r.Ok? && r.value.Some? && r.value.value.command.Some? ==>
            var e := r.value.value.command.value;
            && !Begun(st.memory, e.commandId) && Logged(next.memory, e) && Logged(next.disk, e)
            && Started(next.memory, e.commandId) && Started(next.disk, e.commandId)
            && e.sessionId == s && e.commandSeq == Expected(st.memory, s))
  {
    match ReadyId(st.memory, s)
    case None =>
    case Some(id) =>
      var e := st.memory.commands[id].envelope;
      AcceptPreserves(st, e, false, limit, p, q);
      AcceptHandsOut(st, e, false, limit, p, q);
  }

  lemma CompletePreserves(
    st: Store, id: Name, outcome: Outcome, events: seq<Event>, now: string, p: Persist, q: Persist, limit: nat)
    requires Good(st, limit) && Started(st.memory, id)
    ensures var (next, r) := Complete(st, id, outcome, events, now, p, q);
      && Preserves(st, next, limit)
      && (r.Ok? ==> forall jd :: jd != id && Started(st.memory, jd) ==> Started(next.memory, jd))
  {
    var l := Finish(st.memory, id, outcome, events, now);
    LedgerInvariants.FinishCommandInv(st.memory, id, outcome, events, now, limit);
    CommitPreserves(st, l, p, limit);
    var closed := Commit(st, l, p);
    if p.Saved? {
      CommitPreserves(closed, closed.memory, q, limit);
    }
  }

  /** Steps that leave the commands alone. */
  lemma SidePreserves(st: Store, next: Ledger, p: Persist, limit: nat)
    requires Good(st, limit) && next.commands == st.memory.commands
    requires forall s :: Processed(next, s) == Processed(st.memory, s)
    ensures Preserves(st, Commit(st, next, p), limit)
    ensures p.Saved? ==> forall id :: Started(st.memory, id) ==> Started(Commit(st, next, p).memory, id)
  {
    LedgerInvariants.FrameKeeps(st.memory, next, limit);
    CommitPreserves(st, next, p, limit);
  }

  ghost predicate Sound(d: Daemon, limit: nat) {
    && Good(d.store, limit)
    && (forall e | e in d.handedOut :: Logged(d.store.memory, e) && Logged(d.store.disk, e))
    && NoDuplicates(d.handedOut) && InSequence(d.handedOut)
    && forall id | id in d.inFlight :: Started(d.store.memory, id)
  }

  /** It is the command's turn in its session, or it is a cancellation. */
  predicate AtTurn(l: Ledger, e: CommandEnvelope) {
    e.commandSeq == Expected(l, e.sessionId) || e.command.SessionCancel?
  }

  /** Work handed out now comes after all work of its session that was begun before. */
  lemma TurnFollows(st: Store, next: Store, limit: nat, earlier: CommandEnvelope, e: CommandEnvelope)
    requires Good(st, limit) && Preserves(st, next, limit) && AtTurn(st.memory, e) && !Begun(st.memory, e.commandId)
    requires Logged(st.memory, earlier) && Logged(st.disk, earlier) && Logged(next.memory, e) && SameWork(earlier, e)
    ensures Precedes(earlier, e)
  {
    assert Logged(next.memory, earlier);
    assert LedgerInvariants.SameIdentity(next.memory.commands, earlier.commandId, e.commandId)
      ==> earlier.commandId == e.commandId;
  }

  /** Recording a hand-out keeps the history sound when the command was not begun before. */
  lemma HandOutKeeps(d: Daemon, st: Store, handed: Option<CommandEnvelope>, failed: bool, limit: nat)
    requires Sound(d, limit) && Preserves(d.store, st, limit)
    requires !failed ==> forall id | id in d.inFlight :: Started(st.memory, id)
    requires handed.Some? ==>
      && !Begun(d.store.memory, handed.value.commandId)
      && Started(st.memory, handed.value.commandId) && Started(st.disk, handed.value.commandId)
      && Logged(st.memory, handed.value) && Logged(st.disk, handed.value)
      && AtTurn(d.store.memory, handed.value)
    ensures Sound(HandOut(d, st, handed, failed), limit)
  {
    if handed.Some? {
      var es := d.handedOut + [handed.value];
      forall i | 0 <= i < |d.handedOut|
        ensures es[i].commandId != handed.value.commandId
        ensures SameWork(es[i], handed.value) ==> Precedes(es[i], handed.value)
      {
        assert es[i] in d.handedOut;
        if SameWork(es[i], handed.value) {
          TurnFollows(d.store, st, limit, es[i], handed.value);
        }
      }
    }
  }

  lemma StepKeeps(d: Daemon, a: Action, limit: nat)
    requires Sound(d, limit)
    ensures Sound(Step(d, a, limit), limit)
  {
    if Enabled(d, a) {
      match a
      case AcceptCommand(e, control, p, q) =>
        AcceptPreserves(d.store, e, control, limit, p, q);
        AcceptHandsOut(d.store, e, control, limit, p, q);
        AcceptErrors(d.store, e, control, limit, p, q);
        var (st, r) := Accept(d.store, e, control, limit, p, q);
        HandOutKeeps(d, st, if r.Ok? then r.value.command else None, r == Err(IoError), limit);
      case AcceptReady(s, p, q) =>
        NextHandsOut(d.store, s, limit, p, q);
        NextErrors(d.store, s, limit, p, q);
        var (st, r) := AcceptNext(d.store, s, limit, p, q);
        HandOutKeeps(d, st, if r.Ok? && r.value.Some? then r.value.value.command else None, r == Err(IoError), limit);
      case CompleteCommand(id, outcome, events, now, p, q) =>
        CompletePreserves(d.store, id, outcome, events, now, p, q, limit);
        HandOutKeeps(d.(inFlight := d.inFlight - {id}),
                     Complete(d.store, id, outcome, events, now, p, q).0, None,
                     Complete(d.store, id, outcome, events, now, p, q).1 == Err(IoError), limit);
      case Restart =>
      case _ => SideStepKeeps(d, a, limit);
    }
  }

  lemma AcceptErrors(st: Store, e: CommandEnvelope, control: bool, limit: nat, p: Persist, q: Persist)
    ensures var (next, r) := Accept(st, e, control, limit, p, q); r.Err? && r.error != IoError ==> next == st
  {
  }

  lemma NextErrors(st: Store, s: Name, limit: nat, p: Persist, q: Persist)
    ensures var (next, r) := AcceptNext(st, s, limit, p, q); r.Err? && r.error != IoError ==> next == st
  {
    match ReadyId(st.memory, s)
    case None =>
    case Some(id) => AcceptErrors(st, st.memory.commands[id].envelope, false, limit, p, q);
  }

  lemma SideStepKeeps(d: Daemon, a: Action, limit: nat)
    requires Sound(d, limit) && (a.Appending? || a.Acknowledging? || a.Reconciling?)
    ensures Sound(Step(d, a, limit), limit)
  {
    var l := d.store.memory;
    match a
    case Appending(id, s, event, now, p) =>
      if Append(l, id, s, event, now).Ok? {
        var next := Append(l, id, s, event, now).value.ledger;
        LedgerInvariants.AddAllFrame(l, [Append(l, id, s, event, now).value.envelope]);
        SidePreserves(d.store, next, p, limit);
        HandOutKeeps(d, Commit(d.store, next, p), None, !p.Saved?, limit);
      }
    case Acknowledging(ack, p, q) =>
      if Acknowledge(l, ack).Ok? {
        LedgerInvariants.AcknowledgeEffect(l, ack);
        var next := Acknowledge(l, ack).value;
        SidePreserves(d.store, next, p, limit);
        var acked := Commit(d.store, next, p);
        if p.Saved? {
          SidePreserves(acked, acked.memory, q, limit);
        }
        HandOutKeeps(d, AckEvent(d.store, ack, p, q).0, None, !p.Saved? || !q.Saved?, limit);
      }
    case Reconciling(snapshot, p) =>
      if ValidSnapshot(snapshot) {
        LedgerInvariants.ReconcileIsUnion(l, snapshot);
        var next := Reconcile(l, snapshot);
        SidePreserves(d.store, next, p, limit);
        HandOutKeeps(d, Commit(d.store, next, p), None, !p.Saved?, limit);
      }
  }

  /** With rewrites that succeed, a valid frame hands its command out exactly when it may run. */
  lemma FrameHandsOut(d: Daemon, e: CommandEnvelope, control: bool, limit: nat)
    requires Sound(d, limit) && ValidCommand(e)
    ensures var next, l := Step(d, AcceptCommand(e, control, Saved, Saved), limit), d.store.memory;
      if Prepare(l, e, limit).Ok? && Answers.MayRun(l, e, control) then
        && next.handedOut == d.handedOut + [e] && next.inFlight == d.inFlight + {e.commandId}
        && Started(next.store.memory, e.commandId) && next.store.disk == next.store.memory
      else next.handedOut == d.handedOut && next.inFlight == d.inFlight
  {
    Answers.AcceptanceAnswers(d.store, e, control, limit, Saved, Saved);
    AcceptHandsOut(d.store, e, control, limit, Saved, Saved);
  }

  lemma {:induction false} RunSound(actions: seq<Action>, limit: nat)
    ensures Sound(Run(FRESH, actions, limit), limit)
  {
    if actions == [] {
      LedgerInvariants.EmptyLedger(limit);
    } else {
      RunSound(actions[..|actions| - 1], limit);
      StepKeeps(Run(FRESH, actions[..|actions| - 1], limit), actions[|actions| - 1], limit);
    }
  }

  /** Over any run, however often commands are redelivered, rewrites fail before or after the
      file is replaced, and the daemon restarts, no command crosses to the runtime twice. */
  lemma AtMostOnce(actions: seq<Action>, limit: nat)
    ensures NoDuplicates(Run(FRESH, actions, limit).handedOut)
  {
    RunSound(actions, limit);
  }

  /** Over any run, the work of every session is handed out in the order of its sequence. */
  lemma DispatchInSequence(actions: seq<Action>, limit: nat)
    ensures InSequence(Run(FRESH, actions, limit).handedOut)
  {
    RunSound(actions, limit);
  }

  /** A completion of this process's own work always finds its command in the started state,
      which finishing a command relies on and does not check. */
  lemma CallersSupplyStarted(actions: seq<Action>, limit: nat, id: Name)
    requires id in Run(FRESH, actions, limit).inFlight
    ensures Started(Run(FRESH, actions, limit).store.memory, id)
  {
    RunSound(actions, limit);
  }

  /** On every run: at most one command of a session that is not a cancellation is in flight,
      it is the next of its session, and what waits beyond it stays within the gap limit. */
  lemma HandOutRule(actions: seq<Action>, limit: nat, id: Name, jd: Name, s: Name)
    requires var d := Run(FRESH, actions, limit);
      && id in d.inFlight && id in d.store.memory.commands
      && jd in d.inFlight && jd in d.store.memory.commands
      && d.store.memory.commands[id].envelope.sessionId == s && d.store.memory.commands[jd].envelope.sessionId == s
      && !d.store.memory.commands[id].envelope.command.SessionCancel?
      && !d.store.memory.commands[jd].envelope.command.SessionCancel?
    ensures var d := Run(FRESH, actions, limit);
      && id == jd
      && d.store.memory.commands[id].envelope.commandSeq == Expected(d.store.memory, s)
      && |Waiting(d.store.memory, s)| <= limit
  {
    RunSound(actions, limit);
    LedgerInvariants.OneInFlight(Run(FRESH, actions, limit).store.memory, limit, id, jd);
  }
}
