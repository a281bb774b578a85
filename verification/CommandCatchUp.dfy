/** What sending commands again achieves. Resent without anything finishing, they fit the daemon's gap
    buffer or they do not; resent in order while the work is finished, they always catch up. */
module CommandCatchUp {
  import opened Protocol
  import opened DeliveryLedger
  import opened DurableStore
  import opened Dispatch
  import opened CommandDelivery
  import ArrivalOrder
  import LedgerInvariants
  import Server = ServerOutbox

  /** One command sent again: its frame, the intake with successful rewrites, the acknowledgement. */
  function Resent(e: CommandEnvelope): seq<Move> {
    [Send(e.commandId), Journal(AcceptCommand(e, e.command.SessionCancel?, Saved, Saved)), Confirm(AckOf(e))]
  }

  function Resend(h: Server.History, ids: seq<Name>): seq<Move>
    requires forall id | id in ids :: id in h
  {
    if ids == [] then [] else Resent(h[ids[0]].envelope) + Resend(h, ids[1..])
  }

  /** The same commands, none of them less acknowledged. */
  ghost predicate SameCommands(h: Server.History, g: Server.History) {
    g.Keys == h.Keys && Extends(h, g)
  }

  ghost predicate AllAcknowledged(h: Server.History) {
    forall id | id in h :: h[id].acknowledged
  }

  ghost predicate AllValid(h: Server.History) {
    forall id | id in h :: ValidCommand(h[id].envelope)
  }

  /** Nothing has been finished between the two ledgers. */
  ghost predicate NothingFinished(l: Ledger, r: Ledger) {
    && (forall s :: Processed(r, s) == Processed(l, s))
    && (forall id | id in l.commands ::
          id in r.commands && (r.commands[id].status.Terminal? <==> l.commands[id].status.Terminal?))
    && forall id | id in r.commands && r.commands[id].status.Terminal? :: id in l.commands
  }

  /** The commands of a session beyond its next place that the daemon has not finished, whether they
      have reached it or not. */
  function Beyond(h: Server.History, l: Ledger, s: Name): set<Name> {
    set id | id in h && h[id].envelope.sessionId == s && h[id].envelope.commandSeq > Expected(l, s)
             && !(id in l.commands && l.commands[id].status.Terminal?)
  }

  /* ---- One command ---- */

  lemma AcceptFinishesNothing(st: Store, e: CommandEnvelope, control: bool, limit: nat)
    requires Good(st, limit)
    ensures var (next, r) := Accept(st, e, control, limit, Saved, Saved);
      && NothingFinished(st.memory, next.memory)
      && (r.Ok? <==> ValidCommand(e) && Prepare(st.memory, e, limit).Ok?)
      && if r.Ok? then next.disk == next.memory && r.value.result.ack == AckOf(e) else next == st
  {
    if ValidCommand(e) && Prepare(st.memory, e, limit).Ok? {
      LedgerInvariants.PrepareEntry(st.memory, e, limit);
    }
  }

  /** Frames of the history conflict with nothing the daemon holds. */
  lemma OwnFrame(sys: System, id: Name, limit: nat)
    requires Safe(sys, limit) && id in sys.history
    ensures !Conflicts(sys.daemon.store.memory, sys.history[id].envelope)
    ensures id !in sys.daemon.store.memory.commands ==>
      sys.history[id].envelope.commandSeq >= Expected(sys.daemon.store.memory, sys.history[id].envelope.sessionId)
  {
    var l, e := sys.daemon.store.memory, sys.history[id].envelope;
    forall jd | jd in l.commands && Related(l.commands[jd].envelope, e) ensures l.commands[jd].envelope == e {
      HistoryUnrelated(sys.history, l.commands[jd].envelope, e);
    }
    if id !in l.commands && e.commandSeq < Expected(l, e.sessionId) {
      LedgerInvariants.BelowBoundaryConflicts(l, limit, e);
    }
  }

  lemma TwoMoves(sys: System, x: Move, y: Move, limit: nat)
    ensures Onward(sys, [x, y], limit) == Next(Next(sys, x, limit), y, limit)
  {
    assert [x, y][1..] == [y];
    assert Onward(Next(sys, x, limit), [y], limit) == Onward(Next(Next(sys, x, limit), y, limit), [y][1..], limit);
  }

  lemma ThreeMoves(sys: System, x: Move, y: Move, z: Move, limit: nat)
    ensures Onward(sys, [x, y, z], limit) == Next(Next(Next(sys, x, limit), y, limit), z, limit)
  {
    assert [x, y, z][1..] == [y, z];
    TwoMoves(Next(sys, x, limit), y, z, limit);
  }

  /** A frame taken in with successful rewrites is answered exactly when it is accepted. */
  lemma FrameTaken(sys: System, e: CommandEnvelope, control: bool, limit: nat)
    requires Safe(sys, limit) && e in sys.frames && ValidCommand(e)
    ensures var after := Next(sys, Journal(AcceptCommand(e, control, Saved, Saved)), limit);
      && after.history == sys.history
      && after.daemon.store == Accept(sys.daemon.store, e, control, limit, Saved, Saved).0
      && (Prepare(sys.daemon.store.memory, e, limit).Ok? ==> AckOf(e) in after.acks)
  {
    AcceptFinishesNothing(sys.daemon.store, e, control, limit);
  }

  lemma AckTaken(sys: System, id: Name, limit: nat)
    requires Genuine(sys.history) && id in sys.history
    ensures var after := Next(sys, Confirm(AckOf(sys.history[id].envelope)), limit);
      && SameCommands(sys.history, after.history) && after.daemon == sys.daemon
      && (AckOf(sys.history[id].envelope) in sys.acks ==> after.history[id].acknowledged)
  {
    var e := sys.history[id].envelope;
    ConfirmGenuine(sys.history, id, e.sessionId, e.commandSeq);
  }

  /** A command sent again is acknowledged when the daemon takes it in. */
  lemma ResentOne(sys: System, id: Name, limit: nat)
    requires Safe(sys, limit) && id in sys.history && ValidCommand(sys.history[id].envelope)
    ensures var e := sys.history[id].envelope;
      var after := Onward(sys, Resent(e), limit);
      && Safe(after, limit)
      && SameCommands(sys.history, after.history)
      && after.daemon.store == Accept(sys.daemon.store, e, e.command.SessionCancel?, limit, Saved, Saved).0
      && (Prepare(sys.daemon.store.memory, e, limit).Ok? ==> after.history[id].acknowledged)
  {
    var e := sys.history[id].envelope;
    var x := Journal(AcceptCommand(e, e.command.SessionCancel?, Saved, Saved));
    var sent := Next(sys, Send(id), limit);
    MoveKeeps(sys, Send(id), limit);
    FrameTaken(sent, e, e.command.SessionCancel?, limit);
    MoveKeeps(sent, x, limit);
    AckTaken(Next(sent, x, limit), id, limit);
    MoveKeeps(Next(sent, x, limit), Confirm(AckOf(e)), limit);
    ThreeMoves(sys, Send(id), x, Confirm(AckOf(e)), limit);
  }

  /* ---- Sending again, with nothing finished ---- */

  /** What one resent command changes: nothing is finished, and the count beyond the next place of any
      session stays. */
  ghost predicate SameBeyond(sys: System, after: System) {
    && SameCommands(sys.history, after.history)
    && NothingFinished(sys.daemon.store.memory, after.daemon.store.memory)
  }

  lemma BeyondStays(sys: System, after: System, s: Name)
    requires SameBeyond(sys, after)
    ensures Beyond(after.history, after.daemon.store.memory, s) == Beyond(sys.history, sys.daemon.store.memory, s)
  {
    var l, r := sys.daemon.store.memory, after.daemon.store.memory;
    forall id | id in sys.history
      ensures id in Beyond(after.history, r, s) <==> id in Beyond(sys.history, l, s)
    {
      assert Expected(r, s) == Expected(l, s);
    }
  }

  /** Every session has at most the gap limit beyond its next place. */
  ghost predicate FitsBuffer(sys: System, limit: nat) {
    forall s :: |Beyond(sys.history, sys.daemon.store.memory, s)| <= limit
  }

  lemma WaitsBeyond(sys: System, limit: nat, s: Name)
    requires Safe(sys, limit)
    ensures Waiting(sys.daemon.store.memory, s) <= Beyond(sys.history, sys.daemon.store.memory, s)
    ensures AllAcknowledged(sys.history) ==>
      Waiting(sys.daemon.store.memory, s) == Beyond(sys.history, sys.daemon.store.memory, s)
  {
    var l, h := sys.daemon.store.memory, sys.history;
    if AllAcknowledged(h) {
      forall id | id in Beyond(h, l, s) ensures id in Waiting(l, s) {
        assert id in Both(sys.daemon.store) && OfHistory(h, l.commands[id].envelope);
      }
    }
  }

  lemma FittingIsTaken(sys: System, id: Name, limit: nat)
    requires Safe(sys, limit) && FitsBuffer(sys, limit) && id in sys.history
    ensures Prepare(sys.daemon.store.memory, sys.history[id].envelope, limit).Ok?
  {
    var l, e := sys.daemon.store.memory, sys.history[id].envelope;
    OwnFrame(sys, id, limit);
    if id !in l.commands && e.commandSeq > Expected(l, e.sessionId) {
      var beyond := Beyond(sys.history, l, e.sessionId);
      WaitsBeyond(sys, limit, e.sessionId);
      assert id in beyond && Waiting(l, e.sessionId) <= beyond - {id};
      LedgerInvariants.SubsetSize(Waiting(l, e.sessionId), beyond - {id});
    }
  }

  lemma {:induction false} ResendKeeps(sys: System, h: Server.History, ids: seq<Name>, limit: nat)
    requires Safe(sys, limit) && SameCommands(h, sys.history) && AllValid(h)
    requires forall id | id in ids :: id in h
    ensures var after := Onward(sys, Resend(h, ids), limit);
      && Safe(after, limit) && SameBeyond(sys, after)
      && (FitsBuffer(sys, limit) ==> forall id | id in ids :: after.history[id].acknowledged)
    decreases |ids|
  {
    if ids != [] {
      var id := ids[0];
      var first := Onward(sys, Resent(h[id].envelope), limit);
      ResentOne(sys, id, limit);
      AcceptFinishesNothing(sys.daemon.store, h[id].envelope, h[id].envelope.command.SessionCancel?, limit);
      OnwardSplits(sys, Resent(h[id].envelope), Resend(h, ids[1..]), limit);
      ResendKeeps(first, h, ids[1..], limit);
      if FitsBuffer(sys, limit) {
        FittingIsTaken(sys, id, limit);
        forall s ensures |Beyond(first.history, first.daemon.store.memory, s)| <= limit {
          BeyondStays(sys, first, s);
        }
      }
    }
  }

  /** From any reachable state: when every command not acknowledged is sent again, in whatever order, and
      the rewrites succeed, all commands come to be acknowledged, and with that to be held in memory and on
      disk, if and only if no session has more than the gap limit beyond its next place. */
  lemma ResendingSufficesIff(moves: seq<Move>, ids: seq<Name>, limit: nat)
    requires var h := Reach(moves, limit).history;
      AllValid(h) && (forall id | id in ids :: id in h) && forall id | id in h && !h[id].acknowledged :: id in ids
    ensures var sys := Reach(moves, limit);
      var after := Reach(moves + Resend(sys.history, ids), limit);
      && SameCommands(sys.history, after.history)
      && (AllAcknowledged(after.history) <==> FitsBuffer(sys, limit))
      && (AllAcknowledged(after.history) ==> after.history.Keys == Both(after.daemon.store))
  {
    var sys := Reach(moves, limit);
    var after := Onward(sys, Resend(sys.history, ids), limit);
    ReachSafe(moves, limit);
    OnwardSplits(START, moves, Resend(sys.history, ids), limit);
    ResendKeeps(sys, sys.history, ids, limit);
    if AllAcknowledged(after.history) {
      forall s ensures |Beyond(sys.history, sys.daemon.store.memory, s)| <= limit {
        BeyondStays(sys, after, s);
        WaitsBeyond(after, limit, s);
      }
    }
  }

  /* ---- Sending again, with the work finished ---- */

  /** The turn of one command: it is sent again unless acknowledged, handed out if it is ready and not yet
      handed out, and finished. */
  function Turn(entry: Server.Entry, rt: ArrivalOrder.Runtime): seq<Move> {
    var e := entry.envelope;
    (if entry.acknowledged then [] else Resent(e)) + Finishing(e, rt)
  }

  function Finishing(e: CommandEnvelope, rt: ArrivalOrder.Runtime): seq<Move> {
    var (outcome, events, now) := rt(e);
    [Journal(AcceptReady(e.sessionId, Saved, Saved)),
     Journal(CompleteCommand(e.commandId, outcome, events, now, Saved, Saved))]
  }

  function Turns(h: Server.History, ids: seq<Name>, rt: ArrivalOrder.Runtime): seq<Move>
    requires forall id | id in ids :: id in h
  {
    if ids == [] then [] else Turn(h[ids[0]], rt) + Turns(h, ids[1..], rt)
  }

  /** The boundaries only grow, and memory and disk stay the same ledger. */
  ghost predicate Advances(st: Store, next: Store) {
    && (forall s :: Processed(st.memory, s) <= Processed(next.memory, s))
    && (st.disk == st.memory ==> next.disk == next.memory)
  }

  lemma AtTurnTaken(sys: System, id: Name, limit: nat, control: bool)
    requires Safe(sys, limit) && id in sys.history && ValidCommand(sys.history[id].envelope)
    requires var e := sys.history[id].envelope; e.commandSeq <= Expected(sys.daemon.store.memory, e.sessionId)
    ensures var e, st := sys.history[id].envelope, sys.daemon.store;
      var next := Accept(st, e, control, limit, Saved, Saved).0;
      && Prepare(st.memory, e, limit).Ok?
      && Advances(st, next)
      && (forall s :: Processed(next.memory, s) == Processed(st.memory, s))
      && (e.commandSeq == Expected(st.memory, e.sessionId) ==> Started(next.memory, id))
  {
    var e, st := sys.history[id].envelope, sys.daemon.store;
    OwnFrame(sys, id, limit);
    AcceptFinishesNothing(st, e, control, limit);
    LedgerInvariants.PrepareEntry(st.memory, e, limit);
    if e.commandSeq == Expected(st.memory, e.sessionId) && id in st.memory.commands {
      assert InSlot(st.memory, id, e.sessionId, e.commandSeq);
      assert !TerminalAt(st.memory, e.sessionId, e.commandSeq);
    }
  }

  /** Handing out what is ready leaves the next command of the session started, if it is held. */
  lemma ReadyTaken(sys: System, id: Name, limit: nat)
    requires Safe(sys, limit) && AllValid(sys.history) && id in sys.history && id in sys.daemon.store.memory.commands
    ensures var e, st := sys.history[id].envelope, sys.daemon.store;
      var next := AcceptNext(st, e.sessionId, limit, Saved, Saved).0;
      && Advances(st, next)
      && (forall s :: Processed(next.memory, s) == Processed(st.memory, s))
      && (e.commandSeq == Expected(st.memory, e.sessionId) ==> Started(next.memory, id))
  {
    var e, st := sys.history[id].envelope, sys.daemon.store;
    match ReadyId(st.memory, e.sessionId)
    case None =>
      if e.commandSeq == Expected(st.memory, e.sessionId) {
        assert InSlot(st.memory, id, e.sessionId, e.commandSeq);
        assert !TerminalAt(st.memory, e.sessionId, e.commandSeq) && !Ready(st.memory, id, e.sessionId);
      }
    case Some(jd) =>
      assert OfHistory(sys.history, st.memory.commands[jd].envelope);
      AtTurnTaken(sys, jd, limit, false);
      if e.commandSeq == Expected(st.memory, e.sessionId) {
        LedgerInvariants.SlotUnique(st.memory, id, jd, e.sessionId, e.commandSeq);
      }
  }

  lemma FinishTaken(st: Store, id: Name, limit: nat, outcome: Outcome, events: seq<Event>, now: string)
    requires Good(st, limit) && Started(st.memory, id)
    ensures var next := Complete(st, id, outcome, events, now, Saved, Saved).0;
      var e := st.memory.commands[id].envelope;
      && Advances(st, next)
      && (e.commandSeq == Expected(st.memory, e.sessionId) ==> e.commandSeq <= Processed(next.memory, e.sessionId))
  {
    var e, r := st.memory.commands[id].envelope, Finish(st.memory, id, outcome, events, now);
    LedgerInvariants.FinishCommandInv(st.memory, id, outcome, events, now, limit);
    LedgerInvariants.SettleKeeps(st.memory, id, outcome, limit);
    LedgerInvariants.AddAllFrame(Settle(st.memory, id, outcome), FinishEvents(st.memory, id, outcome, events, now));
    assert InSlot(r, id, e.sessionId, e.commandSeq) && TerminalAt(r, e.sessionId, e.commandSeq);
    assert !TerminalAt(r, e.sessionId, Expected(r, e.sessionId));
  }

  /** What is known of a command whose turn it is, once everything ready was handed out. */
  ghost predicate AtHand(sys: System, id: Name) {
    && id in sys.history && id in sys.daemon.store.memory.commands
    && OfHistory(sys.history, sys.daemon.store.memory.commands[id].envelope)
    && sys.daemon.store.memory.commands[id].envelope.commandId == id
    && var e, l := sys.history[id].envelope, sys.daemon.store.memory;
       || e.commandSeq <= Processed(l, e.sessionId)
       || (Started(l, id) && e.commandSeq == Expected(l, e.sessionId))
  }

  lemma ReadyMove(sys: System, id: Name, limit: nat)
    requires Safe(sys, limit) && AllValid(sys.history) && id in sys.history && id in sys.daemon.store.memory.commands
    requires var e := sys.history[id].envelope; e.commandSeq <= Expected(sys.daemon.store.memory, e.sessionId)
    ensures var after := Next(sys, Journal(AcceptReady(sys.history[id].envelope.sessionId, Saved, Saved)), limit);
      && Safe(after, limit) && after.history == sys.history
      && Advances(sys.daemon.store, after.daemon.store) && AtHand(after, id)
  {
    var e, x := sys.history[id].envelope, Journal(AcceptReady(sys.history[id].envelope.sessionId, Saved, Saved));
    ReadyTaken(sys, id, limit);
    ReadyHeld(sys.daemon.store, e.sessionId, id, limit);
    MoveKeeps(sys, x, limit);
  }

  lemma ReadyHeld(st: Store, s: Name, id: Name, limit: nat)
    requires Good(st, limit) && id in st.memory.commands
    ensures id in AcceptNext(st, s, limit, Saved, Saved).0.memory.commands
  {
    match ReadyId(st.memory, s)
    case None =>
    case Some(jd) => AcceptFinishesNothing(st, st.memory.commands[jd].envelope, false, limit);
  }

  lemma CompleteMove(sys: System, id: Name, limit: nat, outcome: Outcome, events: seq<Event>, now: string)
    requires Safe(sys, limit) && AtHand(sys, id)
    ensures var e := sys.history[id].envelope;
      var after := Next(sys, Journal(CompleteCommand(id, outcome, events, now, Saved, Saved)), limit);
      && Safe(after, limit) && after.history == sys.history
      && Advances(sys.daemon.store, after.daemon.store)
      && e.commandSeq <= Processed(after.daemon.store.memory, e.sessionId)
  {
    var x := Journal(CompleteCommand(id, outcome, events, now, Saved, Saved));
    MoveKeeps(sys, x, limit);
    if Started(sys.daemon.store.memory, id) {
      FinishTaken(sys.daemon.store, id, limit, outcome, events, now);
      assert Next(sys, x, limit).daemon.store
          == Complete(sys.daemon.store, id, outcome, events, now, Saved, Saved).0;
    }
  }

  lemma FinishingOne(sys: System, id: Name, rt: ArrivalOrder.Runtime, limit: nat)
    requires Safe(sys, limit) && AllValid(sys.history) && id in sys.history && id in sys.daemon.store.memory.commands
    requires var e := sys.history[id].envelope; e.commandSeq <= Expected(sys.daemon.store.memory, e.sessionId)
    ensures var e := sys.history[id].envelope;
      var after := Onward(sys, Finishing(e, rt), limit);
      && Safe(after, limit) && after.history == sys.history && Advances(sys.daemon.store, after.daemon.store)
      && e.commandSeq <= Processed(after.daemon.store.memory, e.sessionId)
  {
    var e := sys.history[id].envelope;
    var (outcome, events, now) := rt(e);
    var x := Journal(AcceptReady(e.sessionId, Saved, Saved));
    var y := Journal(CompleteCommand(e.commandId, outcome, events, now, Saved, Saved));
    ReadyMove(sys, id, limit);
    CompleteMove(Next(sys, x, limit), id, limit, outcome, events, now);
    TwoMoves(sys, x, y, limit);
  }

  /** Sending the command whose turn it is brings it into the journal and moves no boundary. */
  lemma ResentAtTurn(sys: System, id: Name, limit: nat)
    requires Safe(sys, limit) && id in sys.history && ValidCommand(sys.history[id].envelope)
    requires var e := sys.history[id].envelope; e.commandSeq <= Expected(sys.daemon.store.memory, e.sessionId)
    ensures var after := Onward(sys, Resent(sys.history[id].envelope), limit);
      && Safe(after, limit) && SameCommands(sys.history, after.history)
      && Advances(sys.daemon.store, after.daemon.store)
      && after.history[id].acknowledged && id in after.daemon.store.memory.commands
  {
    AtTurnTaken(sys, id, limit, sys.history[id].envelope.command.SessionCancel?);
    ResentOne(sys, id, limit);
  }

  /** One turn: the command is acknowledged and the boundary reaches its place. */
  lemma TurnOne(sys: System, h: Server.History, id: Name, rt: ArrivalOrder.Runtime, limit: nat)
    requires Safe(sys, limit) && AllValid(sys.history) && SameCommands(h, sys.history) && id in h
    requires var e := h[id].envelope; e.commandSeq <= Expected(sys.daemon.store.memory, e.sessionId)
    ensures var after := Onward(sys, Turn(h[id], rt), limit);
      && Safe(after, limit) && SameCommands(sys.history, after.history)
      && Advances(sys.daemon.store, after.daemon.store)
      && Done(after, id)
  {
    var e := h[id].envelope;
    if h[id].acknowledged {
      assert Turn(h[id], rt) == Finishing(e, rt);
      FinishingOne(sys, id, rt, limit);
    } else {
      ResentAtTurn(sys, id, limit);
      OnwardSplits(sys, Resent(e), Finishing(e, rt), limit);
      FinishingOne(Onward(sys, Resent(e), limit), id, rt, limit);
    }
  }

  predicate Rising(h: Server.History, ids: seq<Name>)
    requires forall id | id in ids :: id in h
  {
    forall i, j | 0 <= i < j < |ids| && h[ids[i]].envelope.sessionId == h[ids[j]].envelope.sessionId ::
      h[ids[i]].envelope.commandSeq < h[ids[j]].envelope.commandSeq
  }

  /** The command is acknowledged and its session's boundary has reached it. */
  predicate Done(sys: System, id: Name)
    requires id in sys.history
  {
    var e := sys.history[id].envelope;
    sys.history[id].acknowledged && e.commandSeq <= Processed(sys.daemon.store.memory, e.sessionId)
  }

  /** The list names, with the commands of each session in order, every command that is not done. */
  ghost predicate Remaining(sys: System, ids: seq<Name>) {
    && (forall id | id in ids :: id in sys.history)
    && Rising(sys.history, ids)
    && forall id | id in sys.history :: id in ids || Done(sys, id)
  }

  lemma FirstAtTurn(sys: System, ids: seq<Name>, limit: nat)
    requires Safe(sys, limit) && ids != [] && Remaining(sys, ids)
    ensures var e := sys.history[ids[0]].envelope;
      e.commandSeq <= Expected(sys.daemon.store.memory, e.sessionId)
  {
    var e := sys.history[ids[0]].envelope;
    if e.commandSeq > 1 {
      assert e.commandSeq in Server.Seqs(sys.history, e.sessionId);
      assert e.commandSeq - 1 in Server.Seqs(sys.history, e.sessionId);
      var jd := Server.SeqHolder(sys.history, e.sessionId, e.commandSeq - 1);
      forall k | 0 <= k < |ids| ensures ids[k] != jd {
        assert k > 0 && sys.history[ids[k]].envelope.sessionId == e.sessionId ==>
            e.commandSeq < sys.history[ids[k]].envelope.commandSeq;
      }
      assert Done(sys, jd);
    }
  }

  lemma RestRemains(sys: System, after: System, ids: seq<Name>)
    requires ids != [] && Remaining(sys, ids) && SameCommands(sys.history, after.history)
    requires Advances(sys.daemon.store, after.daemon.store) && Done(after, ids[0])
    ensures Remaining(after, ids[1..])
  {
    forall id | id in after.history ensures id in ids[1..] || Done(after, id) {
      if id in ids && id != ids[0] {
        var k :| 0 <= k < |ids| && ids[k] == id;
        assert ids[1..][k - 1] == id;
      } else if id !in ids {
        assert Done(sys, id);
      }
    }
  }

  lemma {:induction false} TurnsFinish(sys: System, h: Server.History, ids: seq<Name>,
                                       rt: ArrivalOrder.Runtime, limit: nat)
    requires Safe(sys, limit) && SameCommands(h, sys.history) && AllValid(h) && Remaining(sys, ids)
    ensures var after := Onward(sys, Turns(h, ids, rt), limit);
      && Safe(after, limit) && SameCommands(h, after.history) && Advances(sys.daemon.store, after.daemon.store)
      && Remaining(after, [])
    decreases |ids|
  {
    if ids != [] {
      var first := Onward(sys, Turn(h[ids[0]], rt), limit);
      FirstAtTurn(sys, ids, limit);
      TurnOne(sys, h, ids[0], rt, limit);
      RestRemains(sys, first, ids);
      OnwardSplits(sys, Turn(h[ids[0]], rt), Turns(h, ids[1..], rt), limit);
      TurnsFinish(first, h, ids[1..], rt, limit);
    }
  }

  /** On a new connection: the server's snapshot is taken over, then each listed command has its turn. */
  function CatchUp(h: Server.History, snapshot: seq<SessionReconcileState>, ids: seq<Name>,
                   rt: ArrivalOrder.Runtime): seq<Move>
    requires forall id | id in ids :: id in h
  {
    [Journal(Reconciling(snapshot, Saved))] + Turns(h, ids, rt)
  }

  lemma BoundaryIsLast(sys: System, limit: nat, s: Name)
    requires Safe(sys, limit) && Remaining(sys, [])
    ensures Processed(sys.daemon.store.memory, s) == Server.Last(sys.history, s)
  {
    var l, p := sys.daemon.store.memory, Processed(sys.daemon.store.memory, s);
    if p > 0 {
      assert Held(l, s, p);
      var id :| InSlot(l, id, s, p);
      assert OfHistory(sys.history, l.commands[id].envelope) && p in Server.Seqs(sys.history, s);
    }
    if Server.Last(sys.history, s) > 0 {
      var id := Server.SeqHolder(sys.history, s, Server.Last(sys.history, s));
      assert Done(sys, id);
    }
  }

  /** Everything allocated is acknowledged, held and finished, and every boundary is at the last allocated
      sequence of its session. */
  ghost predicate Finished(sys: System) {
    var l, h := sys.daemon.store.memory, sys.history;
    && AllAcknowledged(h) && l.commands.Keys == h.Keys
    && (forall id | id in h :: l.commands[id].envelope == h[id].envelope && l.commands[id].status.Terminal?)
    && forall s :: Processed(l, s) == Server.Last(h, s)
  }

  lemma WhenDone(sys: System, limit: nat)
    requires Safe(sys, limit) && Remaining(sys, [])
    ensures Finished(sys)
  {
    forall s ensures Processed(sys.daemon.store.memory, s) == Server.Last(sys.history, s) {
      BoundaryIsLast(sys, limit, s);
    }
    forall id | id in sys.history
      ensures id in sys.daemon.store.memory.commands
      ensures sys.daemon.store.memory.commands[id].envelope == sys.history[id].envelope
      ensures sys.daemon.store.memory.commands[id].status.Terminal?
    {
      assert Done(sys, id);
    }
  }

  lemma SnapshotTold(sys: System, snapshot: seq<SessionReconcileState>, ids: seq<Name>, limit: nat)
    requires Safe(sys, limit) && Remaining(sys, ids) && ValidSnapshot(snapshot)
    ensures var after := Next(sys, Journal(Reconciling(snapshot, Saved)), limit);
      && Safe(after, limit) && after.history == sys.history && Remaining(after, ids)
      && after.daemon.store.disk == after.daemon.store.memory
  {
    MoveKeeps(sys, Journal(Reconciling(snapshot, Saved)), limit);
    LedgerInvariants.ReconcileIsUnion(sys.daemon.store.memory, snapshot);
    forall id | id in sys.history && id !in ids
      ensures Done(Next(sys, Journal(Reconciling(snapshot, Saved)), limit), id)
    {
      assert Done(sys, id);
    }
  }

  /** From any reachable state: when the commands that are not done are sent again in the order of their
      sequences, each is finished as it comes, and the rewrites succeed, then every command ever allocated
      is acknowledged, held in memory and on disk and finished, and every boundary is at the last allocated
      sequence of its session. No gap limit is needed. */
  lemma CatchingUp(moves: seq<Move>, snapshot: seq<SessionReconcileState>, ids: seq<Name>,
                   rt: ArrivalOrder.Runtime, limit: nat)
    requires AllValid(Reach(moves, limit).history) && Remaining(Reach(moves, limit), ids) && ValidSnapshot(snapshot)
    ensures var sys := Reach(moves, limit);
      var after := Reach(moves + CatchUp(sys.history, snapshot, ids, rt), limit);
      && SameCommands(sys.history, after.history) && Finished(after)
      && after.daemon.store.disk == after.daemon.store.memory
  {
    var sys, h := Reach(moves, limit), Reach(moves, limit).history;
    var x := Journal(Reconciling(snapshot, Saved));
    var told := Next(sys, x, limit);
    var after := Onward(told, Turns(h, ids, rt), limit);
    ReachSafe(moves, limit);
    SnapshotTold(sys, snapshot, ids, limit);
    TurnsFinish(told, h, ids, rt, limit);
    WhenDone(after, limit);
    OnwardSplits(START, moves, CatchUp(h, snapshot, ids, rt), limit);
    assert CatchUp(h, snapshot, ids, rt)[1..] == Turns(h, ids, rt);
  }
}
