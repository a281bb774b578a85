/** When two commands of one session come to be queued in the main loop. */
module LoopQueue {
  import opened Protocol
  import opened DeliveryLedger
  import opened DurableStore
  import opened DaemonLoop
  import opened LoopSafety
  import Dispatch
  import LedgerInvariants
  import Scheduler = SchedulerState
  import Runs = SchedulerRuns
  import Queues = SchedulerQueue
  import Books = SchedulerBook
  import Order = SchedulerOrder

  ghost predicate AtMostOne(st: Scheduler.State) {
    forall s :: Queues.Count(st, s) <= 1
  }

  lemma {:induction false} DistinctCount(q: seq<CommandEnvelope>, s: Name)
    requires Scheduler.DistinctSessions(q)
    ensures |Scheduler.OfSession(q, s)| <= 1
  {
    if q != [] {
      DistinctCount(q[1..], s);
      if q[0].sessionId == s {
        Runs.HeadIds(q);
        Queues.NoneQueued(q[1..], s);
      }
    }
  }

  lemma ApartIff(st: Scheduler.State)
    ensures AtMostOne(st) <==> Scheduler.DistinctSessions(st.queued)
  {
    var q := st.queued;
    if AtMostOne(st) {
      forall i, j | 0 <= i < j < |q| ensures q[i].sessionId != q[j].sessionId {
        assert Queues.Count(st, q[i].sessionId) <= 1;
        if q[i].sessionId == q[j].sessionId {
          Order.TwoOfSession(q, i, j, q[i].sessionId);
        }
      }
    }
    if Scheduler.DistinctSessions(q) {
      forall s ensures Queues.Count(st, s) <= 1 {
        DistinctCount(q, s);
      }
    }
  }

  /* ---- Scheduling one command ---- */

  lemma InnerOne(st: Scheduler.State, c: CommandEnvelope)
    requires AtMostOne(st) && Queues.Count(st, c.sessionId) == 0
    ensures AtMostOne(Runs.ScheduleRuntime(st, c)) && AtMostOne(Scheduler.ScheduleInner(st, c))
  {
    forall s
      ensures Queues.Count(Runs.ScheduleRuntime(st, c), s) <= 1 && Queues.Count(Scheduler.ScheduleInner(st, c), s) <= 1
    {
      Queues.CountMore(st.queued, c, s);
      assert Queues.Count(st, s) <= 1;
    }
  }

  lemma {:induction false} SuppressQueue(st: Scheduler.State, cs: seq<CommandEnvelope>)
    ensures Runs.SuppressAll(st, cs).queued == st.queued && Runs.SuppressAll(st, cs).free == st.free
    decreases |cs|
  {
    if cs != [] {
      SuppressQueue(Scheduler.Suppress(st, cs[0]), cs[1..]);
    }
  }

  lemma FlaggedOne(st: Scheduler.State, c: CommandEnvelope)
    requires AtMostOne(st)
    ensures AtMostOne(Runs.Flagged(st, c)) && Queues.Count(Runs.Flagged(st, c), c.sessionId) == 0
  {
    forall s ensures Queues.Count(Runs.Flagged(st, c), s) == if s == c.sessionId then 0 else Queues.Count(st, s) {
      Queues.RemovedOthers(st.queued, c.sessionId, s);
    }
  }

  lemma CancellationOne(st: Scheduler.State, c: CommandEnvelope)
    requires AtMostOne(st)
    ensures AtMostOne(Runs.ScheduleCancellation(st, c))
  {
    var waiting := Scheduler.OfSession(st.queued, c.sessionId);
    FlaggedOne(st, c);
    if c.sessionId in st.active || waiting != [] {
      var r := Runs.SuppressAll(Runs.Interrupting(st, c), waiting);
      SuppressQueue(Runs.Interrupting(st, c), waiting);
      assert Runs.ScheduleCancellation(st, c) == r && r.queued == Runs.Flagged(st, c).queued;
      assert forall s :: Queues.Count(r, s) == Queues.Count(Runs.Flagged(st, c), s);
    } else if c.sessionId !in st.pending {
      InnerOne(Runs.Flagged(st, c), c);
    }
  }

  /** Scheduling a command leaves at most one of each session in the queue if there was no more before. */
  lemma ScheduleOne(st: Scheduler.State, c: CommandEnvelope, book: Books.Book)
    requires AtMostOne(st) && Books.Ready(st, book)
    requires !Scheduler.IsCancel(c) ==> Books.Unworked(st, book, c.sessionId)
    ensures AtMostOne(Runs.Schedule(st, c))
  {
    var admitted := st.(known := st.known + {c.sessionId});
    assert forall s :: Queues.Count(admitted, s) == Queues.Count(st, s);
    if Scheduler.IsCancel(c) {
      CancellationOne(admitted, c);
    } else if c.sessionId !in st.cancelled {
      Books.IdleUnlessCancelled(st, c.sessionId, book);
      InnerOne(admitted, c);
    } else {
      assert forall s :: Queues.Count(Scheduler.Suppress(admitted, c), s) == Queues.Count(st, s);
    }
  }

  lemma EmitOne(st: Scheduler.State, before: Books.Book, l: Ledger, handed: Option<CommandEnvelope>, limit: nat)
    requires LedgerInvariants.CommandInv(l, limit) && Books.Ready(st, before) && Hands(before, StartedBook(l), handed)
    requires AtMostOne(st)
    ensures AtMostOne(Emit(st, handed))
  {
    if handed.Some? {
      HandedFresh(st, before, l, handed.value, limit);
      if !Scheduler.IsCancel(handed.value) {
        FreshUnworked(st, l, handed.value, limit);
      }
      ScheduleOne(st, handed.value, StartedBook(l));
    }
  }

  lemma {:induction false} EmitAllOne(l: Ledger, cs: seq<CommandEnvelope>, limit: nat)
    requires LedgerInvariants.CommandInv(l, limit) && Gathered(cs, StartedBook(l))
    ensures AtMostOne(EmitAll(Scheduler.IDLE, cs))
  {
    if cs == [] {
      assert forall s :: Queues.Count(Scheduler.IDLE, s) == 0;
    } else {
      var front, last := cs[..|cs| - 1], cs[|cs| - 1];
      LastApart(cs);
      EmitAllOne(l, front, limit);
      EmitAllKeeps(l, front, limit);
      var st := EmitAll(Scheduler.IDLE, front);
      assert Books.InBook(StartedBook(l), last);
      if !Scheduler.IsCancel(last) {
        FreshUnworked(st, l, last, limit);
      }
      ScheduleOne(st, last, StartedBook(l));
    }
  }

  /* ---- Handling a completion ---- */

  lemma DrainOne(st: Scheduler.State)
    requires AtMostOne(st)
    ensures AtMostOne(Runs.DrainQueue(st))
    ensures Runs.DrainQueue(st).free == st.free - |Runs.PassOf(st).spawned|
  {
    var p := Runs.PassOf(st);
    var q := st.(queued := Scheduler.QueueAfter(p));
    Runs.SpawnAllEffect(q, p.spawned);
    SuppressQueue(Runs.SpawnAll(q, p.spawned), p.suppressed);
    forall s ensures Queues.Count(Runs.DrainQueue(st), s) <= 1 {
      Queues.DrainCounts(st.queued, st.active.Keys, st.free, st.cancelled, s);
      assert Queues.Count(st, s) <= 1;
    }
  }

  lemma ReceiveOne(st: Scheduler.State)
    requires AtMostOne(st) && Runs.ChannelExact(st) && st.channel != []
    ensures Runs.Receive(st).Some?
    ensures var f, k := Runs.Receive(st).value, st.channel[0];
      && AtMostOne(f.state) && f.state.free == st.free - |Runs.PassOf(Runs.Cleared(st)).spawned|
      && (f.followup.Some? && f.followup.value.RescheduleCancellation?
          <==> k.sessionId in st.pending && !k.terminal && k.sessionId !in st.ended)
  {
    var r := Runs.Cleared(st);
    Runs.ReceiveIs(st);
    assert forall s :: Queues.Count(r, s) == Queues.Count(st, s);
    DrainOne(r);
    var f := Runs.Receive(st).value;
    assert f.state.queued == Runs.DrainQueue(r).queued;
    assert forall s :: Queues.Count(f.state, s) == Queues.Count(Runs.DrainQueue(r), s);
  }

  /** The next command of the session is a cancellation, and has arrived. */
  ghost predicate NextIsCancel(l: Ledger, s: Name) {
    exists id :: Ready(l, id, s) && Scheduler.IsCancel(l.commands[id].envelope)
  }

  lemma ReleasedNext(st: Store, s: Name, limit: nat, p: Persist, q: Persist)
    requires Dispatch.Good(st, limit) && AcceptNext(st, s, limit, p, q).1.Ok?
    ensures var r := AcceptNext(st, s, limit, p, q).1.value;
      var handed := if r.Some? then r.value.command else None;
      handed.Some? && Scheduler.IsCancel(handed.value) <==> NextIsCancel(st.memory, s)
  {
    match ReadyId(st.memory, s)
    case None =>
    case Some(id) =>
      LedgerInvariants.OwnIdentity(st.memory, id);
      forall jd | Ready(st.memory, jd, s) ensures jd == id {
        LedgerInvariants.SlotUnique(st.memory, id, jd, s, Expected(st.memory, s));
      }
  }

  /** What ending a command releases is a cancellation exactly when one comes next. */
  lemma ReleasedIs(j: Dispatch.Daemon, s: Name, id: Name, outcome: Outcome, events: seq<Event>, now: string,
                   w: Writes, v: Writes, limit: nat)
    requires Dispatch.Sound(j, limit) && Dispatch.Started(j.store.memory, id)
    ensures var h := Finishing(j, s, id, outcome, events, now, w, v, limit);
      !h.fatal ==>
        (h.command.Some? && Scheduler.IsCancel(h.command.value)
         <==> NextIsCancel(Settle(j.store.memory, id, outcome), s))
  {
    var l, m := Settle(j.store.memory, id, outcome), Finish(j.store.memory, id, outcome, events, now);
    var closed := Closing(j, id, outcome, events, now, w, limit);
    ClosingForgets(j, id, outcome, events, now, w, limit);
    if !closed.fatal {
      assert closed.journal.store.memory == m;
      LedgerInvariants.AddAllFrame(l, FinishEvents(j.store.memory, id, outcome, events, now));
      assert forall jd :: Ready(m, jd, s) <==> Ready(l, jd, s);
      if AcceptNext(closed.journal.store, s, limit, v.first, v.second).1.Ok? {
        ReleasedNext(closed.journal.store, s, limit, v.first, v.second);
      }
    }
  }

  /** Before a completion is handled: its session keeps a cancellation and goes on, the drain leaves no
      permit, and what the journal releases next is a cancellation of the session too. */
  ghost predicate TwoComing(d: Loop, a: Action)
    requires a.Deliver? && d.scheduler.channel != []
  {
    var st, k := d.scheduler, d.scheduler.channel[0];
    && k.sessionId in st.pending && !k.terminal && k.sessionId !in st.ended
    && |Runs.PassOf(Runs.Cleared(st)).spawned| == st.free
    && k.commandId in Memory(d).commands
    && NextIsCancel(Settle(Memory(d), k.commandId, a.outcome), k.sessionId)
  }

  /** A released command and the kept cancellation, one after the other. */
  lemma BothScheduled(st: Scheduler.State, handed: Option<CommandEnvelope>, c: CommandEnvelope)
    requires AtMostOne(st) && Scheduler.IsCancel(c) && (handed.Some? ==> handed.value.sessionId == c.sessionId)
    requires c.sessionId !in st.active && c.sessionId !in st.pending && Queues.Count(st, c.sessionId) == 0
    requires c.sessionId in st.cancelled && AtMostOne(Emit(st, handed))
    ensures AtMostOne(Runs.ScheduleRuntime(Emit(st, handed), c))
       <==> !(handed.Some? && Scheduler.IsCancel(handed.value) && st.free == 0)
  {
    var u, s := Emit(st, handed), c.sessionId;
    if handed.Some? && Scheduler.IsCancel(handed.value) {
      var admitted := st.(known := st.known + {s});
      assert forall t :: Queues.Count(admitted, t) == Queues.Count(st, t);
      assert Scheduler.OfSession(admitted.queued, s) == [];
      FlaggedOne(admitted, handed.value);
      assert u == Scheduler.ScheduleInner(Runs.Flagged(admitted, handed.value), handed.value);
      if st.free == 0 {
        Queues.CountMore(Runs.Flagged(admitted, handed.value).queued, handed.value, s);
        Queues.CountMore(u.queued, c, s);
        assert Queues.Count(Runs.ScheduleRuntime(u, c), s) == 2;
      } else {
        InnerOne(u, c);
      }
    } else {
      assert Queues.Count(u, s) == 0;
      InnerOne(u, c);
    }
  }

  lemma RecordedOne(d: Loop, a: Action, limit: nat)
    requires Safe(d, limit) && d.online && a.Deliver? && d.scheduler.channel != [] && AtMostOne(d.scheduler)
    ensures Runs.Receive(d.scheduler).Some?
    ensures var f, h := Runs.Receive(d.scheduler).value, Recorded(d, a, limit);
      !h.fatal ==> AtMostOne(Emit(f.state, h.command))
  {
    var st, k := d.scheduler, d.scheduler.channel[0];
    var h, book := Recorded(d, a, limit), StartedBook(Memory(d));
    RecordedKeeps(d, a, limit);
    ReceiveOne(st);
    ReceiveForgets(st, book);
    if !h.fatal {
      EmitOne(Runs.Receive(st).value.state, book - {k.commandId}, h.journal.store.memory, h.command, limit);
    }
  }

  lemma FinishOne(j: Dispatch.Daemon, st: Scheduler.State, c: CommandEnvelope, a: Action, limit: nat)
    requires Dispatch.Sound(j, limit) && a.Deliver? && Steady(st, StartedBook(j.store.memory)) && AtMostOne(st)
    requires Books.Fresh(st, StartedBook(j.store.memory), c)
    ensures var h := Finishing(j, c.sessionId, c.commandId, DispatchSucceeded, [], a.now, a.w3, a.w4, limit);
      !h.fatal ==> AtMostOne(Runs.Cleanup(Emit(st, h.command), c.sessionId))
  {
    var book := StartedBook(j.store.memory);
    var h := Finishing(j, c.sessionId, c.commandId, DispatchSucceeded, [], a.now, a.w3, a.w4, limit);
    FinishingMoves(j, c.sessionId, c.commandId, DispatchSucceeded, [], a.now, a.w3, a.w4, limit);
    if !h.fatal {
      Books.BookForgets(st, book, c.commandId);
      EmitOne(st, book - {c.commandId}, h.journal.store.memory, h.command, limit);
      var r := Runs.Cleanup(Emit(st, h.command), c.sessionId);
      assert forall s :: Queues.Count(r, s) == Queues.Count(Emit(st, h.command), s);
    }
  }

  /** The case in which the session goes on with the cancellation it kept. */
  lemma RescheduleTwo(d: Loop, a: Action, limit: nat)
    requires Safe(d, limit) && d.online && a.Deliver? && d.scheduler.channel != [] && AtMostOne(d.scheduler)
    requires Runs.Receive(d.scheduler).Some? && Runs.Receive(d.scheduler).value.followup.Some?
    requires Runs.Receive(d.scheduler).value.followup.value.RescheduleCancellation? && !Recorded(d, a, limit).fatal
    ensures var f, h := Runs.Receive(d.scheduler).value, Recorded(d, a, limit);
      AtMostOne(Runs.ScheduleRuntime(Emit(f.state, h.command), f.followup.value.command)) <==> !TwoComing(d, a)
  {
    var st, k := d.scheduler, d.scheduler.channel[0];
    var f, h := Runs.Receive(st).value, Recorded(d, a, limit);
    RecordedOne(d, a, limit);
    RecordedKeeps(d, a, limit);
    FreedFresh(d, a, limit);
    ReceiveOne(st);
    Queues.ReceiveTidy(st);
    CompletionStarted(d, limit);
    ReleasedIs(d.journal, k.sessionId, k.commandId, a.outcome, a.events, a.now, a.w1, a.w2, limit);
    BothScheduled(f.state, h.command, f.followup.value.command);
  }

  /** Handling a completion brings two commands of a session into a queue that had none two of a session
      exactly when both cancellations are coming. */
  lemma DeliverTwoIff(d: Loop, a: Action, limit: nat)
    requires Safe(d, limit) && d.online && a.Deliver? && d.scheduler.channel != [] && AtMostOne(d.scheduler)
    requires Step(d, a, limit).online
    ensures AtMostOne(Step(d, a, limit).scheduler) <==> !TwoComing(d, a)
  {
    RecordedOne(d, a, limit);
    ReceiveOne(d.scheduler);
    var f, h := Runs.Receive(d.scheduler).value, Recorded(d, a, limit);
    if f.followup.Some? {
      if f.followup.value.RescheduleCancellation? {
        RescheduleTwo(d, a, limit);
      } else {
        RecordedKeeps(d, a, limit);
        FreedFresh(d, a, limit);
        FinishOne(h.journal, Emit(f.state, h.command), f.followup.value.command, a, limit);
      }
    }
  }

  /** No other step does. */
  lemma OthersKeepOne(d: Loop, a: Action, limit: nat)
    requires Safe(d, limit) && !a.Deliver? && AtMostOne(d.scheduler)
    ensures AtMostOne(Step(d, a, limit).scheduler)
  {
    assert AtMostOne(Scheduler.IDLE) by {
      assert forall s :: Queues.Count(Scheduler.IDLE, s) == 0;
    }
    match a
    case Frame(e, w) =>
      if d.online {
        AcceptingHands(d.journal, e, w, limit);
        var h := Accepting(d.journal, e, w, limit);
        if !h.fatal {
          EmitOne(d.scheduler, StartedBook(Memory(d)), h.journal.store.memory, h.command, limit);
        }
      }
    case Connect =>
      if !d.online {
        EmitAllOne(Memory(d), d.recovered, limit);
      }
    case End(s, terminal) =>
      assert forall t :: Queues.Count(Runs.WorkerEnds(d.scheduler, s, terminal), t) == Queues.Count(d.scheduler, t);
    case _ =>
  }

  /** On every run: as long as the queued commands are of different sessions, they stop being so exactly
      when a completion is handled whose session keeps a cancellation and goes on, while the journal has
      another cancellation of it next and the drain leaves no permit. */
  lemma QueuedApartUntil(actions: seq<Action>, a: Action, limit: nat)
    requires Scheduler.DistinctSessions(Run(actions, limit).scheduler.queued)
    requires Step(Run(actions, limit), a, limit).online
    ensures var d := Run(actions, limit);
      Scheduler.DistinctSessions(Step(d, a, limit).scheduler.queued)
      <==> !(a.Deliver? && d.online && d.scheduler.channel != [] && TwoComing(d, a))
  {
    var d := Run(actions, limit);
    RunSafe(actions, limit);
    ApartIff(d.scheduler);
    ApartIff(Step(d, a, limit).scheduler);
    if !a.Deliver? {
      OthersKeepOne(d, a, limit);
    } else if d.online && d.scheduler.channel != [] {
      DeliverTwoIff(d, a, limit);
    }
  }
}
