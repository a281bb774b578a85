/** Command delivery end to end: the server's outbox, a network that may lose, repeat, delay and
    reorder every frame, and a daemon whose rewrites may fail and which may restart at any time. */
module CommandDelivery {
  import opened Protocol
  import opened DeliveryLedger
  import opened DurableStore
  import opened Dispatch
  import LedgerInvariants
  import ArrivalOrder
  import Server = ServerOutbox

  /** Frames and acknowledgements stay for ever, so a step may deliver any that was ever sent. */
  datatype System = System(
    daemon: Daemon, history: Server.History, frames: set<CommandEnvelope>, acks: set<CommandAck>)

  const START := System(Dispatch.FRESH, map[], {}, {})

  datatype Move =
    | Begin(id: Name, session: Name, sentAt: string, command: Command)
    | Send(id: Name)
    | Confirm(ack: CommandAck)
    | Journal(action: Dispatch.Action)

  /** Only command frames that were sent arrive. */
  predicate Allowed(sys: System, a: Dispatch.Action) {
    a.AcceptCommand? ==> a.envelope in sys.frames
  }

  /** The acknowledgements a daemon sends for one operation, each after its rewrites. */
  ghost function AcksOf(d: Daemon, a: Dispatch.Action, limit: nat): set<CommandAck> {
    match a
    case AcceptCommand(e, control, p, q) =>
      var r := Accept(d.store, e, control, limit, p, q).1;
      if r.Ok? then {r.value.result.ack} else {}
    case AcceptReady(s, p, q) =>
      var r := AcceptNext(d.store, s, limit, p, q).1;
      if r.Ok? && r.value.Some? then {r.value.value.result.ack} else {}
    case CompleteCommand(id, outcome, events, now, p, q) =>
      if id in d.store.memory.commands && Complete(d.store, id, outcome, events, now, p, q).1.Ok?
      then {AckOf(d.store.memory.commands[id].envelope)} else {}
    case _ => {}
  }

  /** One step. Compaction of the outbox is not one: it changes no history. */
  ghost function Next(sys: System, x: Move, limit: nat): System {
    match x
    case Begin(id, s, sentAt, command) => sys.(history := Server.Begin(sys.history, id, s, sentAt, command))
    case Send(id) =>
      if id in sys.history then sys.(frames := sys.frames + {sys.history[id].envelope}) else sys
    case Confirm(ack) =>
      if ack in sys.acks
      then sys.(history := Server.Confirm(sys.history, ack.commandId, ack.sessionId, ack.commandSeq)) else sys
    case Journal(a) =>
      if Allowed(sys, a)
      then sys.(daemon := Dispatch.Step(sys.daemon, a, limit),
                acks := sys.acks + if Enabled(sys.daemon, a) then AcksOf(sys.daemon, a, limit) else {})
      else sys
  }

  ghost function Onward(sys: System, moves: seq<Move>, limit: nat): System
    decreases |moves|
  {
    if moves == [] then sys else Onward(Next(sys, moves[0], limit), moves[1..], limit)
  }

  ghost function Reach(moves: seq<Move>, limit: nat): System {
    Onward(START, moves, limit)
  }

  lemma {:induction false} OnwardSplits(sys: System, xs: seq<Move>, ys: seq<Move>, limit: nat)
    ensures Onward(sys, xs + ys, limit) == Onward(Onward(sys, xs, limit), ys, limit)
    decreases |xs|
  {
    if xs == [] {
      assert xs + ys == ys;
    } else {
      assert (xs + ys)[1..] == xs[1..] + ys;
      OnwardSplits(Next(sys, xs[0], limit), xs[1..], ys, limit);
    }
  }

  /* ---- The server's history ---- */

  predicate SameMessage(h: Server.History, id: Name, jd: Name) {
    && id in h && jd in h && h[id].envelope.sessionId == h[jd].envelope.sessionId
    && MessageIdOf(h[id].envelope.command).Some?
    && MessageIdOf(h[id].envelope.command) == MessageIdOf(h[jd].envelope.command)
  }

  /** Every command id, every place in a session and every message of a session belongs to one
      command. */
  ghost predicate Genuine(h: Server.History) {
    Server.Numbered(h) && forall id, jd :: SameMessage(h, id, jd) ==> id == jd
  }

  /** The tables of the outbox always stand for such a history. */
  lemma TablesAreGenuine(outbox: map<Name, Server.Row>, tombstones: map<Name, Server.Tombstone>,
                         watermarks: map<Name, nat>, messages: map<(Name, Name), Name>, h: Server.History)
    requires Server.Consistent(outbox, tombstones, watermarks, messages, h)
    ensures Genuine(h)
  {
    forall id, jd | SameMessage(h, id, jd) ensures id == jd {
      var m := MessageIdOf(h[id].envelope.command).value;
      assert Server.Bound(messages, h[id].envelope.sessionId, m, id);
      assert Server.Bound(messages, h[jd].envelope.sessionId, m, jd);
    }
  }

  predicate OfHistory(h: Server.History, e: CommandEnvelope) {
    e.commandId in h && h[e.commandId].envelope == e
  }

  lemma HistoryUnrelated(h: Server.History, e: CommandEnvelope, f: CommandEnvelope)
    requires Genuine(h) && OfHistory(h, e) && OfHistory(h, f) && Related(e, f)
    ensures e == f
  {
    assert Server.SameSlot(h, e.commandId, f.commandId) ==> e.commandId == f.commandId;
    assert SameMessage(h, e.commandId, f.commandId) ==> e.commandId == f.commandId;
  }

  /** `g` goes on from `h`: no command is forgotten or changed. */
  ghost predicate Extends(h: Server.History, g: Server.History) {
    forall id | id in h :: id in g && g[id].envelope == h[id].envelope && (h[id].acknowledged ==> g[id].acknowledged)
  }

  lemma BeginGenuine(h: Server.History, id: Name, s: Name, sentAt: string, command: Command)
    requires Genuine(h)
    ensures var g := Server.Begin(h, id, s, sentAt, command); Genuine(g) && Extends(h, g)
  {
    if id !in h && !Server.MessageTaken(h, s, command) {
      var e := CommandEnvelope(id, s, Server.Last(h, s) + 1, sentAt, command);
      var g := h[id := Server.Entry(e, false)];
      Server.InsertNumbered(h, e);
      forall jd, kd | SameMessage(g, jd, kd) ensures jd == kd {
        assert jd != id && kd != id ==> SameMessage(h, jd, kd);
      }
    }
  }

  lemma ConfirmGenuine(h: Server.History, id: Name, s: Name, n: nat)
    requires Genuine(h)
    ensures var g := Server.Confirm(h, id, s, n); Genuine(g) && Extends(h, g)
  {
    if Server.Confirm(h, id, s, n) != h {
      var g := Server.Acked(h, id);
      Server.AckedNumbered(h, id);
      forall jd, kd | SameMessage(g, jd, kd) ensures jd == kd {
        assert SameMessage(h, jd, kd);
      }
    }
  }

  /* ---- The daemon's side ---- */

  /** A journal holds only commands of the history. */
  ghost predicate HoldsOnly(l: Ledger, h: Server.History) {
    forall id | id in l.commands :: l.commands[id].envelope.commandId == id && OfHistory(h, l.commands[id].envelope)
  }

  /** Commands held in memory and on disk. */
  function Both(st: Store): set<Name> {
    st.memory.commands.Keys * st.disk.commands.Keys
  }

  /** `next` goes on from `st`: commands of the history only, and none held in both is lost. */
  ghost predicate HoldsOn(st: Store, next: Store, h: Server.History) {
    HoldsOnly(next.memory, h) && HoldsOnly(next.disk, h) && Both(st) <= Both(next)
  }

  lemma CommitHolds(st: Store, next: Ledger, p: Persist, h: Server.History)
    requires HoldsOnly(st.memory, h) && HoldsOnly(st.disk, h) && HoldsOnly(next, h)
    requires st.memory.commands.Keys <= next.commands.Keys
    ensures HoldsOn(st, Commit(st, next, p), h)
  {
  }

  lemma AcceptHolds(st: Store, e: CommandEnvelope, control: bool, limit: nat, p: Persist, q: Persist, h: Server.History)
    requires Good(st, limit) && HoldsOnly(st.memory, h) && HoldsOnly(st.disk, h) && OfHistory(h, e)
    ensures var (next, r) := Accept(st, e, control, limit, p, q);
      && HoldsOn(st, next, h)
      && (r.Ok? ==> r.value.result.ack == AckOf(e) && e.commandId in Both(next))
  {
    if ValidCommand(e) && Prepare(st.memory, e, limit).Ok? {
      var prepared := Prepare(st.memory, e, limit).value;
      LedgerInvariants.PrepareEntry(st.memory, e, limit);
      CommitHolds(st, prepared.ledger, p, h);
      var taken := Commit(st, prepared.ledger, p);
      if p.Saved? && HandsOut(prepared, e, control) {
        CommitHolds(taken, MarkStarted(taken.memory, e.commandId), q, h);
      }
    }
  }

  lemma NextHolds(st: Store, s: Name, limit: nat, p: Persist, q: Persist, h: Server.History)
    requires Good(st, limit) && HoldsOnly(st.memory, h) && HoldsOnly(st.disk, h)
    ensures var (next, r) := AcceptNext(st, s, limit, p, q);
      && HoldsOn(st, next, h)
      && (r.Ok? && r.value.Some? ==>
            var ack := r.value.value.result.ack;
            ack.commandId in Both(next) && ack.commandId in h && ack == AckOf(h[ack.commandId].envelope))
  {
    match ReadyId(st.memory, s)
    case None =>
    case Some(id) => AcceptHolds(st, st.memory.commands[id].envelope, false, limit, p, q, h);
  }

  lemma CompleteHolds(st: Store, id: Name, outcome: Outcome, events: seq<Event>, now: string, p: Persist,
                      q: Persist, limit: nat, h: Server.History)
    requires Good(st, limit) && HoldsOnly(st.memory, h) && HoldsOnly(st.disk, h) && Started(st.memory, id)
    ensures var (next, r) := Complete(st, id, outcome, events, now, p, q);
      HoldsOn(st, next, h) && (r.Ok? ==> id in Both(next))
  {
    var l := Finish(st.memory, id, outcome, events, now);
    LedgerInvariants.FinishCommandInv(st.memory, id, outcome, events, now, limit);
    CommitHolds(st, l, p, h);
    var closed := Commit(st, l, p);
    if p.Saved? {
      CommitHolds(closed, closed.memory, q, h);
    }
  }

  lemma SideHolds(d: Daemon, a: Dispatch.Action, limit: nat, h: Server.History)
    requires HoldsOnly(d.store.memory, h) && HoldsOnly(d.store.disk, h)
    requires a.Appending? || a.Acknowledging? || a.Reconciling? || a.Restart?
    ensures HoldsOn(d.store, Dispatch.Step(d, a, limit).store, h)
  {
    var st := d.store;
    match a
    case Appending(id, s, event, now, p) =>
      if Append(st.memory, id, s, event, now).Ok? {
        var appended := Append(st.memory, id, s, event, now).value;
        LedgerInvariants.AddAllFrame(st.memory, [appended.envelope]);
        CommitHolds(st, appended.ledger, p, h);
      }
    case Acknowledging(ack, p, q) =>
      if Acknowledge(st.memory, ack).Ok? {
        LedgerInvariants.AcknowledgeEffect(st.memory, ack);
        var next := Acknowledge(st.memory, ack).value;
        CommitHolds(st, next, p, h);
        if p.Saved? {
          CommitHolds(Commit(st, next, p), next, q, h);
        }
      }
    case Reconciling(snapshot, p) =>
      if ValidSnapshot(snapshot) {
        LedgerInvariants.ReconcileIsUnion(st.memory, snapshot);
        CommitHolds(st, Reconcile(st.memory, snapshot), p, h);
      }
    case Restart =>
  }

  lemma DaemonHolds(d: Daemon, a: Dispatch.Action, limit: nat, h: Server.History)
    requires Sound(d, limit) && HoldsOnly(d.store.memory, h) && HoldsOnly(d.store.disk, h) && Enabled(d, a)
    requires a.AcceptCommand? ==> OfHistory(h, a.envelope)
    ensures var next := Dispatch.Step(d, a, limit);
      && HoldsOn(d.store, next.store, h)
      && forall ack | ack in AcksOf(d, a, limit) ::
           ack.commandId in Both(next.store) && ack.commandId in h && ack == AckOf(h[ack.commandId].envelope)
  {
    match a
    case AcceptCommand(e, control, p, q) => AcceptHolds(d.store, e, control, limit, p, q, h);
    case AcceptReady(s, p, q) => NextHolds(d.store, s, limit, p, q, h);
    case CompleteCommand(id, outcome, events, now, p, q) =>
      CompleteHolds(d.store, id, outcome, events, now, p, q, limit, h);
    case _ => SideHolds(d, a, limit, h);
  }

  /* ---- Every run ---- */

  ghost predicate Agrees(st: Store, h: Server.History) {
    && HoldsOnly(st.memory, h) && HoldsOnly(st.disk, h)
    && forall id | id in h && h[id].acknowledged :: id in Both(st)
  }

  ghost predicate InFlight(st: Store, h: Server.History, frames: set<CommandEnvelope>, acks: set<CommandAck>) {
    && (forall e | e in frames :: OfHistory(h, e))
    && forall ack | ack in acks ::
         ack.commandId in Both(st) && ack.commandId in h && ack == AckOf(h[ack.commandId].envelope)
  }

  /** The history is genuine; the daemon and the network hold nothing else; what is acknowledged, or
      will be, the daemon holds in memory and on disk. */
  ghost predicate Safe(sys: System, limit: nat) {
    && Sound(sys.daemon, limit) && Genuine(sys.history)
    && Agrees(sys.daemon.store, sys.history)
    && InFlight(sys.daemon.store, sys.history, sys.frames, sys.acks)
  }

  lemma HistoryGrows(st: Store, h: Server.History, g: Server.History, frames: set<CommandEnvelope>,
                     acks: set<CommandAck>)
    requires Agrees(st, h) && InFlight(st, h, frames, acks) && Extends(h, g)
    requires forall id | id in g && g[id].acknowledged :: id in Both(st)
    ensures Agrees(st, g) && InFlight(st, g, frames, acks)
  {
  }

  lemma StoreMoves(st: Store, next: Store, h: Server.History, frames: set<CommandEnvelope>, acks: set<CommandAck>,
                   more: set<CommandAck>)
    requires Agrees(st, h) && InFlight(st, h, frames, acks) && HoldsOn(st, next, h)
    requires forall ack | ack in more ::
      ack.commandId in Both(next) && ack.commandId in h && ack == AckOf(h[ack.commandId].envelope)
    ensures Agrees(next, h) && InFlight(next, h, frames, acks + more)
  {
  }

  lemma MoveKeeps(sys: System, x: Move, limit: nat)
    requires Safe(sys, limit)
    ensures Safe(Next(sys, x, limit), limit)
  {
    var st, h := sys.daemon.store, sys.history;
    match x
    case Begin(id, s, sentAt, command) =>
      BeginGenuine(h, id, s, sentAt, command);
      HistoryGrows(st, h, Server.Begin(h, id, s, sentAt, command), sys.frames, sys.acks);
    case Send(id) =>
    case Confirm(ack) =>
      if ack in sys.acks {
        ConfirmGenuine(h, ack.commandId, ack.sessionId, ack.commandSeq);
        HistoryGrows(st, h, Server.Confirm(h, ack.commandId, ack.sessionId, ack.commandSeq), sys.frames, sys.acks);
      }
    case Journal(a) =>
      if Allowed(sys, a) && Enabled(sys.daemon, a) {
        DaemonHolds(sys.daemon, a, limit, h);
        Dispatch.StepKeeps(sys.daemon, a, limit);
        StoreMoves(st, Dispatch.Step(sys.daemon, a, limit).store, h, sys.frames, sys.acks,
                   AcksOf(sys.daemon, a, limit));
      }
  }

  lemma {:induction false} OnwardSafe(sys: System, moves: seq<Move>, limit: nat)
    requires Safe(sys, limit)
    ensures Safe(Onward(sys, moves, limit), limit)
    decreases |moves|
  {
    if moves != [] {
      MoveKeeps(sys, moves[0], limit);
      OnwardSafe(Next(sys, moves[0], limit), moves[1..], limit);
    }
  }

  lemma ReachSafe(moves: seq<Move>, limit: nat)
    ensures Safe(Reach(moves, limit), limit)
  {
    LedgerInvariants.EmptyLedger(limit);
    Server.EmptyNumbered();
    OnwardSafe(START, moves, limit);
  }

  /** Over every run: no two frames ever sent claim one identity unless they are the same, and none
      conflicts with the journal. A valid frame is refused only when the gap buffer is full. */
  lemma FramesNeverConflict(moves: seq<Move>, limit: nat, e: CommandEnvelope, f: CommandEnvelope)
    requires e in Reach(moves, limit).frames && f in Reach(moves, limit).frames
    ensures Related(e, f) ==> e == f
    ensures var l := Reach(moves, limit).daemon.store.memory;
      && !Conflicts(l, e)
      && (Prepare(l, e, limit).Ok? || Prepare(l, e, limit).error == GapOverflow(e.sessionId, limit))
  {
    ReachSafe(moves, limit);
    var sys := Reach(moves, limit);
    var l, h := sys.daemon.store.memory, sys.history;
    if Related(e, f) {
      HistoryUnrelated(h, e, f);
    }
    forall id | id in l.commands && Related(l.commands[id].envelope, e) ensures l.commands[id].envelope == e {
      HistoryUnrelated(h, l.commands[id].envelope, e);
    }
    if e.commandId !in l.commands && e.commandSeq < Expected(l, e.sessionId) {
      LedgerInvariants.BelowBoundaryConflicts(l, limit, e);
    }
  }

  /** No command is lost: one that was ever allocated either is not acknowledged, and so is still a
      row the server sends again, or the daemon holds it in memory and on disk. */
  lemma NothingLost(moves: seq<Move>, limit: nat, id: Name)
    requires id in Reach(moves, limit).history
    ensures var sys := Reach(moves, limit);
      var st, entry := sys.daemon.store, sys.history[id];
      || !entry.acknowledged
      || (id in st.memory.commands && st.memory.commands[id].envelope == entry.envelope
          && id in st.disk.commands && st.disk.commands[id].envelope == entry.envelope)
  {
    ReachSafe(moves, limit);
  }

  /** What is dispatched, over every run: commands of the history, each once, the work of every
      session in the order of its sequence. */
  lemma DispatchedOnceInSequence(moves: seq<Move>, limit: nat)
    ensures var sys := Reach(moves, limit);
      && NoDuplicates(sys.daemon.handedOut) && InSequence(sys.daemon.handedOut)
      && forall e | e in sys.daemon.handedOut :: OfHistory(sys.history, e)
  {
    ReachSafe(moves, limit);
  }

  /** Any two runs, with whatever losses, repetitions, failures and restarts, dispatch the work they
      both dispatch in the same order within each session. */
  lemma RunsDispatchAlike(moves: seq<Move>, others: seq<Move>, limit: nat, i: nat, j: nat, m: nat, n: nat)
    requires var es, fs := Reach(moves, limit).daemon.handedOut, Reach(others, limit).daemon.handedOut;
      && i < |es| && j < |es| && m < |fs| && n < |fs|
      && es[i] == fs[m] && es[j] == fs[n] && SameWork(es[i], es[j])
    ensures i < j <==> m < n
  {
    DispatchedOnceInSequence(moves, limit);
    DispatchedOnceInSequence(others, limit);
    var es, fs := Reach(moves, limit).daemon.handedOut, Reach(others, limit).daemon.handedOut;
    InSequenceIff(es, i, j);
    InSequenceIff(fs, m, n);
  }

  lemma InSequenceIff(es: seq<CommandEnvelope>, i: nat, j: nat)
    requires NoDuplicates(es) && InSequence(es) && i < |es| && j < |es| && SameWork(es[i], es[j])
    ensures i < j <==> Precedes(es[i], es[j])
  {
    assert SameWork(es[j], es[i]);
  }

  /** On the synchronous path, whatever frames of one run are delivered, in whatever order and however
      often: within the gap limit each is accepted, and the work of a session depends only on which
      frames they were. */
  lemma FramesDispatchAlike(moves: seq<Move>, xs: seq<CommandEnvelope>, ys: seq<CommandEnvelope>, limit: nat,
                            rt: ArrivalOrder.Runtime, s: Name)
    requires forall e | e in xs :: e in Reach(moves, limit).frames && ValidCommand(e)
    requires (forall e :: e in xs <==> e in ys) && ArrivalOrder.WithinLimit(xs, limit)
    ensures forall e :: ArrivalOrder.Accepted(ArrivalOrder.FeedAll(xs, limit, rt).ledger, e) <==> e in xs
    ensures ArrivalOrder.OfSession(ArrivalOrder.FeedAll(xs, limit, rt).log, s)
         == ArrivalOrder.OfSession(ArrivalOrder.FeedAll(ys, limit, rt).log, s)
  {
    forall e, f | e in xs && f in xs && Related(e, f) ensures e == f {
      FramesNeverConflict(moves, limit, e, f);
    }
    ArrivalOrder.AllAccepted(xs, limit, rt);
    ArrivalOrder.SameWorkAnyOrder(xs, ys, limit, rt, s);
  }
}
