/** What the journal holds about a command after the main loop handled its completion. */
module LoopRecords {
  import opened Protocol
  import opened DeliveryLedger
  import opened DurableStore
  import opened DaemonLoop
  import opened LoopSafety
  import Dispatch
  import LedgerInvariants
  import Scheduler = SchedulerState
  import Runs = SchedulerRuns
  import Books = SchedulerBook
  import Moves = SchedulerMoves

  predicate EndedAs(l: Ledger, id: Name, outcome: Outcome) {
    id in l.commands && l.commands[id].status == Terminal(outcome)
  }

  /** What has ended stays as it ended. */
  ghost predicate KeepsEnds(l: Ledger, m: Ledger) {
    forall id, outcome | EndedAs(l, id, outcome) :: EndedAs(m, id, outcome)
  }

  lemma ReleasingEnds(j: Dispatch.Daemon, s: Name, w: Writes, limit: nat)
    requires Dispatch.Sound(j, limit)
    ensures var h := Releasing(j, s, w, limit); !h.fatal ==> KeepsEnds(j.store.memory, h.journal.store.memory)
  {
    var st := j.store;
    match ReadyId(st.memory, s)
    case None =>
    case Some(id) =>
      var e := st.memory.commands[id].envelope;
      if Accept(st, e, false, limit, w.first, w.second).1.Ok? {
        LedgerInvariants.PrepareEntry(st.memory, e, limit);
      }
  }

  lemma ClosingEnds(j: Dispatch.Daemon, id: Name, outcome: Outcome, events: seq<Event>, now: string, w: Writes,
                    limit: nat)
    requires Dispatch.Sound(j, limit) && Dispatch.Started(j.store.memory, id)
    ensures var h := Closing(j, id, outcome, events, now, w, limit);
      && Dispatch.Sound(h.journal, limit)
      && (!h.fatal ==> KeepsEnds(j.store.memory, h.journal.store.memory)
                       && EndedAs(h.journal.store.memory, id, outcome))
  {
    Dispatch.StepKeeps(j, Dispatch.CompleteCommand(id, outcome, events, now, w.first, w.second), limit);
    LedgerInvariants.FinishCommandInv(j.store.memory, id, outcome, events, now, limit);
  }

  lemma FinishingEnds(j: Dispatch.Daemon, s: Name, id: Name, outcome: Outcome, events: seq<Event>, now: string,
                      w: Writes, v: Writes, limit: nat)
    requires Dispatch.Sound(j, limit) && Dispatch.Started(j.store.memory, id)
    ensures var h := Finishing(j, s, id, outcome, events, now, w, v, limit);
      !h.fatal ==>
        KeepsEnds(j.store.memory, h.journal.store.memory) && EndedAs(h.journal.store.memory, id, outcome)
  {
    ClosingEnds(j, id, outcome, events, now, w, limit);
    var closed := Closing(j, id, outcome, events, now, w, limit);
    if !closed.fatal {
      ReleasingEnds(closed.journal, s, v, limit);
    }
  }

  /** On every run, when a completion has been handled and the process lives, its command has ended in the
      journal with the outcome reported; and if its session ended and a cancellation was kept for it, that
      has ended too, as dispatched. */
  lemma DeliveryRecords(actions: seq<Action>, a: Action, limit: nat)
    requires Run(actions, limit).online && a.Deliver? && Run(actions, limit).scheduler.channel != []
    requires Step(Run(actions, limit), a, limit).online
    ensures var d, l := Run(actions, limit), Memory(Step(Run(actions, limit), a, limit));
      var k, st := d.scheduler.channel[0], d.scheduler;
      && EndedAs(l, k.commandId, a.outcome)
      && (k.sessionId in st.pending && (k.terminal || k.sessionId in st.ended) ==>
            EndedAs(l, st.pending[k.sessionId].commandId, DispatchSucceeded))
  {
    RunSafe(actions, limit);
    HandledRecords(Run(actions, limit), a, limit);
  }

  lemma HandledRecords(d: Loop, a: Action, limit: nat)
    requires Safe(d, limit) && d.online && a.Deliver? && d.scheduler.channel != [] && Step(d, a, limit).online
    ensures var l, k, st := Memory(Step(d, a, limit)), d.scheduler.channel[0], d.scheduler;
      && EndedAs(l, k.commandId, a.outcome)
      && (k.sessionId in st.pending && (k.terminal || k.sessionId in st.ended) ==>
            EndedAs(l, st.pending[k.sessionId].commandId, DispatchSucceeded))
  {
    var k, st := d.scheduler.channel[0], d.scheduler;
    CompletionStarted(d, limit);
    RecordedKeeps(d, a, limit);
    FinishingEnds(d.journal, k.sessionId, k.commandId, a.outcome, a.events, a.now, a.w1, a.w2, limit);
    Moves.CompletionHandled(st.(channel := st.channel[1..]), k);
    var f, h := Runs.Receive(st).value, Recorded(d, a, limit);
    if f.followup.Some? && f.followup.value.FinishCancellation? {
      var c := f.followup.value.command;
      FreedFresh(d, a, limit);
      FinishingEnds(h.journal, c.sessionId, c.commandId, DispatchSucceeded, [], a.now, a.w3, a.w4, limit);
    }
  }
}
