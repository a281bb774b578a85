/** What becomes of a cancellation the scheduler drops, and two runs of the main loop that show what may
    happen in it. */
module LoopOutcomes {
  import opened Protocol
  import opened DeliveryLedger
  import opened DurableStore
  import opened DaemonLoop
  import opened LoopSafety
  import Dispatch
  import LedgerInvariants
  import Scheduler = SchedulerState
  import Runs = SchedulerRuns
  import Queues = SchedulerQueue
  import Books = SchedulerBook

  /* ---- Dropped commands ---- */

  /** The journal holds the command as started and the scheduler knows nothing of it. */
  predicate Orphan(d: Loop, id: Name) {
    d.online && Dispatch.Started(Memory(d), id) && id !in Books.InHand(d.scheduler)
  }

  lemma FrameLeaves(d: Loop, a: Action, limit: nat, id: Name)
    requires Safe(d, limit) && Orphan(d, id) && a.Frame?
    ensures var r := Step(d, a, limit); r.online ==> Orphan(r, id)
  {
    var h := Accepting(d.journal, a.command, a.w, limit);
    AcceptingHands(d.journal, a.command, a.w, limit);
    if !h.fatal {
      EmitKeeps(d.scheduler, StartedBook(Memory(d)), h.journal.store.memory, h.command, limit);
      assert id in StartedBook(Memory(d)) && id in StartedBook(h.journal.store.memory);
    }
  }

  lemma NotConcerned(st: Scheduler.State, id: Name)
    requires Runs.Inv(st) && st.channel != [] && id !in Books.InHand(st) && Runs.Receive(st).Some?
    ensures id != st.channel[0].commandId
    ensures var f := Runs.Receive(st).value.followup; f.Some? ==> f.value.command.commandId != id
  {
    Runs.PoppedKeeps(st);
    Books.FollowupIs(st);
    assert forall s | s in st.pending :: st.pending[s].commandId in Books.PendingIds(st.pending);
  }

  lemma RecordedHands(d: Loop, a: Action, limit: nat)
    requires Safe(d, limit) && d.online && a.Deliver? && d.scheduler.channel != []
    ensures Runs.Receive(d.scheduler).Some?
    ensures var r, h := Runs.Receive(d.scheduler).value.state, Recorded(d, a, limit);
      !h.fatal ==>
        && Hands(StartedBook(Memory(d)) - {d.scheduler.channel[0].commandId},
                 StartedBook(h.journal.store.memory), h.command)
        && Books.InHand(Emit(r, h.command)) <= Books.InHand(d.scheduler) + Taken(r, h.command)
  {
    RecordedKeeps(d, a, limit);
  }

  /** A command neither started nor in hand anew. */
  lemma HandsHolds(before: Books.Book, after: Books.Book, handed: Option<CommandEnvelope>, id: Name,
                   st: Scheduler.State, was: set<Name>, now: set<Name>)
    requires Hands(before, after, handed) && id in before && now <= was + Taken(st, handed)
    ensures id in after && (id in now ==> id in was)
  {
  }

  /** The completions of other commands, and what they set free, do not concern it. */
  lemma RecordedLeaves(d: Loop, a: Action, limit: nat, id: Name)
    requires Safe(d, limit) && Orphan(d, id) && a.Deliver? && d.scheduler.channel != []
    ensures Runs.Receive(d.scheduler).Some?
    ensures var f, h := Runs.Receive(d.scheduler).value, Recorded(d, a, limit);
      && (f.followup.Some? ==> f.followup.value.command.commandId != id)
      && (!h.fatal ==>
            id in StartedBook(h.journal.store.memory) && id !in Books.InHand(Emit(f.state, h.command)))
  {
    assert Runs.Receive(d.scheduler).Some? by {
      Runs.ReceiveIs(d.scheduler);
    }
    NotConcerned(d.scheduler, id);
    RecordedHands(d, a, limit);
    var f, h := Runs.Receive(d.scheduler).value, Recorded(d, a, limit);
    if !h.fatal {
      HandsHolds(StartedBook(Memory(d)) - {d.scheduler.channel[0].commandId}, StartedBook(h.journal.store.memory),
                 h.command, id, f.state, Books.InHand(d.scheduler), Books.InHand(Emit(f.state, h.command)));
    }
  }

  lemma FinishLeaves(j: Dispatch.Daemon, st: Scheduler.State, c: CommandEnvelope, a: Action, limit: nat, id: Name)
    requires Dispatch.Sound(j, limit) && a.Deliver? && Steady(st, StartedBook(j.store.memory))
    requires Books.Fresh(st, StartedBook(j.store.memory), c) && c.commandId != id
    requires id in StartedBook(j.store.memory) && id !in Books.InHand(st)
    ensures var h := Finishing(j, c.sessionId, c.commandId, DispatchSucceeded, [], a.now, a.w3, a.w4, limit);
      !h.fatal ==>
        && id in StartedBook(h.journal.store.memory)
        && id !in Books.InHand(Runs.Cleanup(Emit(st, h.command), c.sessionId))
  {
    FinishKeeps(j, st, c, a, limit);
    assert id in StartedBook(j.store.memory) - {c.commandId};
  }

  lemma RescheduleLeaves(d: Loop, a: Action, limit: nat, id: Name)
    requires Safe(d, limit) && d.online && a.Deliver? && d.scheduler.channel != [] && !Recorded(d, a, limit).fatal
    requires Runs.Receive(d.scheduler).Some? && Runs.Receive(d.scheduler).value.followup.Some?
    requires Runs.Receive(d.scheduler).value.followup.value.RescheduleCancellation?
    requires Runs.Receive(d.scheduler).value.followup.value.command.commandId != id
    ensures var f, h := Runs.Receive(d.scheduler).value, Recorded(d, a, limit);
      var st := Emit(f.state, h.command);
      id in Books.InHand(Runs.ScheduleRuntime(st, f.followup.value.command)) ==> id in Books.InHand(st)
  {
    RescheduleKeeps(d, a, limit);
  }

  lemma CancellationLeaves(d: Loop, a: Action, limit: nat, id: Name)
    requires Safe(d, limit) && d.online && a.Deliver? && d.scheduler.channel != [] && !Recorded(d, a, limit).fatal
    requires Runs.Receive(d.scheduler).Some? && Runs.Receive(d.scheduler).value.followup.Some?
    requires Runs.Receive(d.scheduler).value.followup.value.command.commandId != id
    requires var f, h := Runs.Receive(d.scheduler).value, Recorded(d, a, limit);
      id in StartedBook(h.journal.store.memory) && id !in Books.InHand(Emit(f.state, h.command))
    ensures var f, h := Runs.Receive(d.scheduler).value, Recorded(d, a, limit);
      var c, st := f.followup.value.command, Emit(f.state, h.command);
      var g := Finishing(h.journal, c.sessionId, c.commandId, DispatchSucceeded, [], a.now, a.w3, a.w4, limit);
      !g.fatal ==>
        && id in StartedBook(g.journal.store.memory)
        && id !in Books.InHand(Runs.Cleanup(Emit(st, g.command), c.sessionId))
  {
    FreedFresh(d, a, limit);
    RecordedKeeps(d, a, limit);
    var f, h := Runs.Receive(d.scheduler).value, Recorded(d, a, limit);
    FinishLeaves(h.journal, Emit(f.state, h.command), f.followup.value.command, a, limit, id);
  }

  lemma FollowedLeaves(d: Loop, a: Action, limit: nat, id: Name, f: Runs.Finished, h: Handed)
    requires Safe(d, limit) && Orphan(d, id) && a.Deliver? && d.scheduler.channel != []
    requires h == Recorded(d, a, limit) && !h.fatal && Runs.Receive(d.scheduler) == Some(f)
    requires id in StartedBook(h.journal.store.memory) && id !in Books.InHand(Emit(f.state, h.command))
    requires f.followup.Some? ==> f.followup.value.command.commandId != id
    ensures var r := Followed(d.(journal := h.journal, scheduler := Emit(f.state, h.command)), f.followup, a, limit);
      r.online ==> Orphan(r, id)
  {
    if f.followup.Some? {
      if f.followup.value.RescheduleCancellation? {
        RescheduleLeaves(d, a, limit, id);
      } else {
        CancellationLeaves(d, a, limit, id);
      }
    }
  }

  lemma DeliverLeaves(d: Loop, a: Action, limit: nat, id: Name)
    requires Safe(d, limit) && Orphan(d, id) && a.Deliver?
    ensures var r := Step(d, a, limit); r.online ==> Orphan(r, id)
  {
    if d.scheduler.channel != [] {
      RecordedLeaves(d, a, limit, id);
      var f, h := Runs.Receive(d.scheduler).value, Recorded(d, a, limit);
      if !h.fatal {
        FollowedLeaves(d, a, limit, id, f, h);
      }
    }
  }

  lemma OrphanStays(d: Loop, a: Action, limit: nat, id: Name)
    requires Safe(d, limit) && Orphan(d, id)
    ensures var r := Step(d, a, limit); r.online ==> Orphan(r, id)
  {
    match a
    case Frame(_, _) => FrameLeaves(d, a, limit, id);
    case Deliver(_, _, _, _, _, _, _) => DeliverLeaves(d, a, limit, id);
    case Side(action) =>
      if action.Appending? || action.Acknowledging? || action.Reconciling? {
        SideLeaves(d.journal, action, limit);
        assert id in StartedBook(Memory(d));
      }
    case End(s, terminal) => Books.EndBooked(d.scheduler, s, terminal, StartedBook(Memory(d)));
    case _ =>
  }

  /** The command stands in the way of its session: the boundary stays below it, and no work that comes
      after it is begun. */
  ghost predicate Blocks(l: Ledger, e: CommandEnvelope) {
    && Processed(l, e.sessionId) < e.commandSeq
    && forall id | WorkOf(l, id, e.sessionId) && l.commands[id].envelope.commandSeq > e.commandSeq ::
         l.commands[id].status.Received?
  }

  lemma StartedBlocks(l: Ledger, id: Name, limit: nat)
    requires LedgerInvariants.CommandInv(l, limit) && Dispatch.Started(l, id)
    ensures Blocks(l, l.commands[id].envelope)
  {
  }

  /** The daemon is connected all the time from `actions` to the end of `more`. */
  ghost predicate Throughout(actions: seq<Action>, more: seq<Action>, limit: nat) {
    forall n | 0 <= n <= |more| :: Run(actions + more[..n], limit).online
  }

  lemma RunNext(actions: seq<Action>, a: Action, limit: nat)
    ensures Run(actions + [a], limit) == Step(Run(actions, limit), a, limit)
  {
    assert (actions + [a])[..|actions|] == actions;
  }

  lemma OrphanNext(actions: seq<Action>, a: Action, limit: nat, id: Name)
    requires Orphan(Run(actions, limit), id) && Run(actions + [a], limit).online
    ensures Orphan(Run(actions + [a], limit), id)
  {
    RunSafe(actions, limit);
    OrphanStays(Run(actions, limit), a, limit, id);
    RunNext(actions, a, limit);
  }

  lemma OneFurther(actions: seq<Action>, more: seq<Action>, n: nat)
    requires 0 < n <= |more|
    ensures actions + more[..n] == (actions + more[..n - 1]) + [more[n - 1]]
  {
  }

  lemma {:induction false} OrphanThroughout(actions: seq<Action>, more: seq<Action>, n: nat, limit: nat, id: Name)
    requires n <= |more| && Orphan(Run(actions, limit), id) && Throughout(actions, more, limit)
    ensures Orphan(Run(actions + more[..n], limit), id)
  {
    if n == 0 {
      assert actions + more[..0] == actions;
    } else {
      var prior := actions + more[..n - 1];
      OrphanThroughout(actions, more, n - 1, limit, id);
      OneFurther(actions, more, n);
      OrphanNext(prior, more[n - 1], limit, id);
    }
  }

  /** What the scheduler has dropped stays started and blocks its session for as long as the process
      lives. */
  lemma DroppedBlocks(actions: seq<Action>, more: seq<Action>, limit: nat, id: Name)
    requires Orphan(Run(actions, limit), id) && Throughout(actions, more, limit)
    ensures var d := Run(actions + more, limit); Orphan(d, id) && Blocks(Memory(d), Memory(d).commands[id].envelope)
  {
    OrphanThroughout(actions, more, |more|, limit, id);
    assert more[..|more|] == more;
    RunSafe(actions + more, limit);
    StartedBlocks(Memory(Run(actions + more, limit)), id, limit);
  }

  /** What a process left started, the next one closes before it takes up work, and then it is out of the
      way. */
  lemma RestartCloses(d: Loop, id: Name, outcome: Outcome, now: string, limit: nat)
    requires Safe(d, limit) && !d.online && Stale(d, id)
    ensures Step(d, Connect, limit) == d
    ensures var closed := Step(d, CloseStale(id, outcome, now, Writes(Saved, Saved)), limit);
      id in Memory(closed).commands && Memory(closed).commands[id].status == Status.Terminal(outcome)
  {
    assert exists jd :: Stale(d, jd);
    ClosedIsTerminal(d.journal, id, outcome, now, limit);
  }

  lemma ClosedIsTerminal(j: Dispatch.Daemon, id: Name, outcome: Outcome, now: string, limit: nat)
    requires Dispatch.Sound(j, limit) && Dispatch.Started(j.store.memory, id)
    ensures var h := Closing(j, id, outcome, [], now, Writes(Saved, Saved), limit);
      var l := h.journal.store.memory;
      !h.fatal && id in l.commands && l.commands[id].status == Status.Terminal(outcome)
  {
    LedgerInvariants.FinishCommandInv(j.store.memory, id, outcome, [], now, limit);
    assert Closing(j, id, outcome, [], now, Writes(Saved, Saved), limit).journal.store.memory
        == Finish(j.store.memory, id, outcome, [], now);
  }
}
