/** What every run of the daemon's main loop keeps: whatever the scheduler has in hand is started in
    the journal, and started work is in hand. */
module LoopSafety {
  import opened Protocol
  import opened DeliveryLedger
  import opened DurableStore
  import opened DaemonLoop
  import Dispatch
  import LedgerInvariants
  import Scheduler = SchedulerState
  import Runs = SchedulerRuns
  import Queues = SchedulerQueue
  import Books = SchedulerBook
  import Order = SchedulerOrder

  /* ---- What journal operations do to the started commands ---- */

  /** Nothing was started, or just the command that was handed out, which was not started before. */
  ghost predicate Hands(before: Books.Book, after: Books.Book, command: Option<CommandEnvelope>) {
    match command
    case None => after == before
    case Some(c) => c.commandId !in before && after == before[c.commandId := c]
  }

  lemma StartedOne(l: Ledger, r: Ledger, e: CommandEnvelope)
    requires r.commands == l.commands[e.commandId := CommandEntry(e, DispatchStarted)]
    ensures StartedBook(r) == StartedBook(l)[e.commandId := e]
  {
  }

  lemma AcceptStarts(st: Store, e: CommandEnvelope, control: bool, limit: nat, p: Persist, q: Persist)
    requires Dispatch.Good(st, limit)
    ensures var (next, r) := Accept(st, e, control, limit, p, q);
      r.Ok? ==> Hands(StartedBook(st.memory), StartedBook(next.memory), r.value.command)
  {
    if ValidCommand(e) && Prepare(st.memory, e, limit).Ok? {
      var prepared := Prepare(st.memory, e, limit).value;
      LedgerInvariants.PrepareEntry(st.memory, e, limit);
      assert StartedBook(prepared.ledger) == StartedBook(st.memory);
      if HandsOut(prepared, e, control) {
        StartedOne(prepared.ledger, MarkStarted(prepared.ledger, e.commandId), e);
      }
    }
  }

  lemma AcceptingHands(j: Dispatch.Daemon, e: CommandEnvelope, w: Writes, limit: nat)
    requires Dispatch.Sound(j, limit)
    ensures var h := Accepting(j, e, w, limit);
      && Dispatch.Sound(h.journal, limit)
      && (!h.fatal ==> Hands(StartedBook(j.store.memory), StartedBook(h.journal.store.memory), h.command))
  {
    var control := e.command.SessionCancel?;
    Dispatch.StepKeeps(j, Dispatch.AcceptCommand(e, control, w.first, w.second), limit);
    Dispatch.AcceptErrors(j.store, e, control, limit, w.first, w.second);
    AcceptStarts(j.store, e, control, limit, w.first, w.second);
  }

  lemma ReleasingHands(j: Dispatch.Daemon, s: Name, w: Writes, limit: nat)
    requires Dispatch.Sound(j, limit)
    ensures var h := Releasing(j, s, w, limit);
      && Dispatch.Sound(h.journal, limit)
      && (!h.fatal ==> Hands(StartedBook(j.store.memory), StartedBook(h.journal.store.memory), h.command))
      && (h.command.Some? ==> h.command.value.sessionId == s)
  {
    Dispatch.StepKeeps(j, Dispatch.AcceptReady(s, w.first, w.second), limit);
    Dispatch.NextHandsOut(j.store, s, limit, w.first, w.second);
    match ReadyId(j.store.memory, s)
    case None =>
    case Some(id) => AcceptStarts(j.store, j.store.memory.commands[id].envelope, false, limit, w.first, w.second);
  }

  lemma ClosingForgets(j: Dispatch.Daemon, id: Name, outcome: Outcome, events: seq<Event>, now: string, w: Writes,
                       limit: nat)
    requires Dispatch.Sound(j, limit) && Dispatch.Started(j.store.memory, id)
    ensures var h := Closing(j, id, outcome, events, now, w, limit);
      && Dispatch.Sound(h.journal, limit)
      && (!h.fatal ==> StartedBook(h.journal.store.memory) == StartedBook(j.store.memory) - {id})
  {
    Dispatch.StepKeeps(j, Dispatch.CompleteCommand(id, outcome, events, now, w.first, w.second), limit);
    LedgerInvariants.FinishCommandInv(j.store.memory, id, outcome, events, now, limit);
  }

  /** Ending a command and releasing the next one of its session: the first leaves the book, and what is
      handed out joins it. */
  lemma FinishingMoves(j: Dispatch.Daemon, s: Name, id: Name, outcome: Outcome, events: seq<Event>, now: string,
                       w: Writes, v: Writes, limit: nat)
    requires Dispatch.Sound(j, limit) && Dispatch.Started(j.store.memory, id)
    ensures var h := Finishing(j, s, id, outcome, events, now, w, v, limit);
      && Dispatch.Sound(h.journal, limit)
      && (!h.fatal ==> Hands(StartedBook(j.store.memory) - {id}, StartedBook(h.journal.store.memory), h.command))
      && (h.command.Some? ==> h.command.value.sessionId == s)
  {
    ClosingForgets(j, id, outcome, events, now, w, limit);
    var closed := Closing(j, id, outcome, events, now, w, limit);
    if !closed.fatal {
      ReleasingHands(closed.journal, s, v, limit);
    }
  }

  lemma SideLeaves(j: Dispatch.Daemon, a: Dispatch.Action, limit: nat)
    requires Dispatch.Sound(j, limit) && (a.Appending? || a.Acknowledging? || a.Reconciling?)
    ensures var next := Dispatch.Step(j, a, limit);
      Dispatch.Sound(next, limit) && (!Fatal(j, a) ==> StartedBook(next.store.memory) == StartedBook(j.store.memory))
  {
    Dispatch.StepKeeps(j, a, limit);
    var l := j.store.memory;
    match a
    case Appending(id, s, event, now, p) =>
      if Append(l, id, s, event, now).Ok? {
        LedgerInvariants.AddAllFrame(l, [Append(l, id, s, event, now).value.envelope]);
      }
    case Acknowledging(ack, p, q) =>
      if Acknowledge(l, ack).Ok? {
        LedgerInvariants.AcknowledgeEffect(l, ack);
      }
    case Reconciling(snapshot, p) => LedgerInvariants.ReconcileIsUnion(l, snapshot);
  }

  /* ---- The invariant ---- */

  /** Started work, cancellations aside, is in hand. */
  ghost predicate WorkInHand(st: Scheduler.State, book: Books.Book) {
    forall id | id in book && !Scheduler.IsCancel(book[id]) :: id in Books.InHand(st)
  }

  /** Commands of the book, each once. */
  ghost predicate Gathered(cs: seq<CommandEnvelope>, book: Books.Book) {
    Runs.DistinctIds(cs) && forall c | c in cs :: Books.InBook(book, c)
  }

  ghost predicate Safe(d: Loop, limit: nat) {
    var book := StartedBook(Memory(d));
    && Dispatch.Sound(d.journal, limit)
    && Books.Ready(d.scheduler, book)
    && if d.online then d.recovered == [] && WorkInHand(d.scheduler, book)
       else d.scheduler == Scheduler.IDLE && Gathered(d.recovered, book)
  }

  lemma InHandBooked(st: Scheduler.State, book: Books.Book)
    requires Books.Booked(st, book)
    ensures Books.InHand(st) <= book.Keys
  {
    forall s | s in st.active ensures st.active[s] in book {
      assert Books.ActiveFits(st, book, s);
    }
    forall c | c in st.queued ensures c.commandId in book {
      assert Books.InBook(book, c);
    }
  }

  lemma BookKeyed(l: Ledger, limit: nat)
    requires LedgerInvariants.CommandInv(l, limit)
    ensures Books.Keyed(StartedBook(l)) && Books.Ready(Scheduler.IDLE, StartedBook(l))
    ensures Books.InHand(Scheduler.IDLE) == {}
  {
    assert forall s :: Queues.Count(Scheduler.IDLE, s) == 0;
  }

  /** The journal lets only one command of a session that is not a cancellation be under way, so
      another one in the scheduler's hands would be the same. */
  lemma FreshUnworked(st: Scheduler.State, l: Ledger, c: CommandEnvelope, limit: nat)
    requires LedgerInvariants.CommandInv(l, limit) && Books.Booked(st, StartedBook(l))
    requires Books.Fresh(st, StartedBook(l), c) && !Scheduler.IsCancel(c)
    ensures Books.Unworked(st, StartedBook(l), c.sessionId)
  {
    var book, s := StartedBook(l), c.sessionId;
    forall x | x in st.queued && x.sessionId == s ensures Scheduler.IsCancel(x) {
      assert Books.InBook(book, x) && x.commandId in Scheduler.Ids(st.queued);
      if !Scheduler.IsCancel(x) {
        LedgerInvariants.OneInFlight(l, limit, x.commandId, c.commandId);
      }
    }
    if s in st.active {
      assert Books.ActiveFits(st, book, s) && st.active[s] in Runs.ActiveIds(st.active);
      if !Scheduler.IsCancel(book[st.active[s]]) {
        LedgerInvariants.OneInFlight(l, limit, st.active[s], c.commandId);
      }
    }
  }

  /** Scheduling a started command that is not in hand. */
  lemma ScheduleKeeps(st: Scheduler.State, l: Ledger, c: CommandEnvelope, limit: nat)
    requires LedgerInvariants.CommandInv(l, limit)
    requires Books.Ready(st, StartedBook(l)) && Books.Fresh(st, StartedBook(l), c)
    ensures var r := Runs.Schedule(st, c);
      && Books.Ready(r, StartedBook(l))
      && Books.InHand(r) == Books.InHand(st) + (if Books.Dropped(st, c) then {} else {c.commandId})
  {
    if !Scheduler.IsCancel(c) {
      FreshUnworked(st, l, c, limit);
    }
    Books.ScheduleBooked(st, c, StartedBook(l));
  }

  /** What a hand-out adds to what is in hand. */
  function Taken(st: Scheduler.State, handed: Option<CommandEnvelope>): set<Name> {
    if handed.None? || Books.Dropped(st, handed.value) then {} else {handed.value.commandId}
  }

  lemma HandedFresh(st: Scheduler.State, before: Books.Book, l: Ledger, c: CommandEnvelope, limit: nat)
    requires LedgerInvariants.CommandInv(l, limit) && Books.Ready(st, before) && Hands(before, StartedBook(l), Some(c))
    ensures Books.Ready(st, StartedBook(l)) && Books.Fresh(st, StartedBook(l), c)
  {
    BookKeyed(l, limit);
    InHandBooked(st, before);
    Books.BookGrows(st, before, StartedBook(l));
    assert StartedBook(l)[c.commandId] == c;
  }

  lemma EmitKeeps(st: Scheduler.State, before: Books.Book, l: Ledger, handed: Option<CommandEnvelope>, limit: nat)
    requires LedgerInvariants.CommandInv(l, limit) && Books.Ready(st, before) && Hands(before, StartedBook(l), handed)
    ensures Books.Ready(Emit(st, handed), StartedBook(l))
    ensures Books.InHand(Emit(st, handed)) == Books.InHand(st) + Taken(st, handed)
    ensures WorkInHand(st, before) ==> WorkInHand(Emit(st, handed), StartedBook(l))
  {
    if handed.Some? {
      HandedFresh(st, before, l, handed.value, limit);
      ScheduleKeeps(st, l, handed.value, limit);
    }
  }

  lemma LastApart(cs: seq<CommandEnvelope>)
    requires cs != [] && Runs.DistinctIds(cs)
    ensures Runs.DistinctIds(cs[..|cs| - 1]) && cs[|cs| - 1].commandId !in Scheduler.Ids(cs[..|cs| - 1])
    ensures Scheduler.Ids(cs) == Scheduler.Ids(cs[..|cs| - 1]) + {cs[|cs| - 1].commandId}
  {
    var front, last := cs[..|cs| - 1], cs[|cs| - 1];
    assert cs == front + [last];
    Runs.PartsDistinct(front, [last]);
    Runs.ConcatIds(front, [last]);
    assert Scheduler.Ids([last]) == {last.commandId};
  }

  /** Scheduling what recovery handed out. */
  lemma {:induction false} EmitAllKeeps(l: Ledger, cs: seq<CommandEnvelope>, limit: nat)
    requires LedgerInvariants.CommandInv(l, limit)
    requires Runs.DistinctIds(cs) && forall c | c in cs :: Books.InBook(StartedBook(l), c)
    ensures var r := EmitAll(Scheduler.IDLE, cs);
      && Books.Ready(r, StartedBook(l)) && Books.InHand(r) <= Scheduler.Ids(cs)
      && forall c | c in cs && !Scheduler.IsCancel(c) :: c.commandId in Books.InHand(r)
  {
    BookKeyed(l, limit);
    if cs != [] {
      LastApart(cs);
      EmitAllKeeps(l, cs[..|cs| - 1], limit);
      assert Books.InBook(StartedBook(l), cs[|cs| - 1]);
      ScheduleKeeps(EmitAll(Scheduler.IDLE, cs[..|cs| - 1]), l, cs[|cs| - 1], limit);
    }
  }

  /* ---- Steps ---- */

  /** A new process starts with an idle scheduler. */
  lemma DownKeeps(j: Dispatch.Daemon, limit: nat)
    requires Dispatch.Sound(j, limit)
    ensures Safe(Down(j, limit), limit)
  {
    Dispatch.StepKeeps(j, Dispatch.Restart, limit);
    BookKeyed(Memory(Down(j, limit)), limit);
  }

  lemma IdleBook(d: Loop, j: Dispatch.Daemon, limit: nat)
    requires Safe(d, limit) && !d.online && Dispatch.Sound(j, limit)
    ensures Books.Ready(Scheduler.IDLE, StartedBook(j.store.memory))
  {
    BookKeyed(j.store.memory, limit);
  }

  lemma CloseStaleKeeps(d: Loop, a: Action, limit: nat)
    requires Safe(d, limit) && a.CloseStale?
    ensures Safe(Step(d, a, limit), limit)
  {
    if !d.online && Stale(d, a.id) {
      var h := Closing(d.journal, a.id, a.outcome, [], a.now, a.w, limit);
      ClosingForgets(d.journal, a.id, a.outcome, [], a.now, a.w, limit);
      if h.fatal {
        DownKeeps(h.journal, limit);
      } else {
        IdleBook(d, h.journal, limit);
        forall c | c in d.recovered ensures Books.InBook(StartedBook(h.journal.store.memory), c) {
          assert c.commandId in Scheduler.Ids(d.recovered);
        }
      }
    }
  }

  lemma GatherOne(cs: seq<CommandEnvelope>, before: Books.Book, after: Books.Book, handed: Option<CommandEnvelope>)
    requires Gathered(cs, before) && Hands(before, after, handed)
    ensures Gathered(cs + if handed.Some? then [handed.value] else [], after)
  {
    if handed.Some? {
      var c := handed.value;
      assert c.commandId !in Scheduler.Ids(cs);
      assert Scheduler.Ids([c]) == {c.commandId};
      Runs.ConcatDistinct(cs, [c]);
    } else {
      assert cs + [] == cs;
    }
  }

  lemma ResumeKeeps(d: Loop, a: Action, limit: nat)
    requires Safe(d, limit) && a.Resume?
    ensures Safe(Step(d, a, limit), limit)
  {
    if !d.online && !exists id :: Stale(d, id) {
      var h := Releasing(d.journal, a.session, a.w, limit);
      ReleasingHands(d.journal, a.session, a.w, limit);
      if h.fatal {
        DownKeeps(h.journal, limit);
      } else {
        IdleBook(d, h.journal, limit);
        GatherOne(d.recovered, StartedBook(Memory(d)), StartedBook(h.journal.store.memory), h.command);
      }
    }
  }

  lemma ConnectKeeps(d: Loop, limit: nat)
    requires Safe(d, limit)
    ensures Safe(Step(d, Connect, limit), limit)
  {
    if !d.online && !exists id :: Stale(d, id) {
      var l := Memory(d);
      EmitAllKeeps(l, d.recovered, limit);
      forall id | id in StartedBook(l) && !Scheduler.IsCancel(StartedBook(l)[id])
        ensures id in Books.InHand(EmitAll(Scheduler.IDLE, d.recovered))
      {
        assert !Stale(d, id);
        var c :| c in d.recovered && c.commandId == id;
        assert Books.InBook(StartedBook(l), c);
      }
    }
  }

  lemma FrameKeeps(d: Loop, a: Action, limit: nat)
    requires Safe(d, limit) && a.Frame?
    ensures Safe(Step(d, a, limit), limit)
  {
    if d.online {
      var h := Accepting(d.journal, a.command, a.w, limit);
      AcceptingHands(d.journal, a.command, a.w, limit);
      if h.fatal {
        DownKeeps(h.journal, limit);
      } else {
        EmitKeeps(d.scheduler, StartedBook(Memory(d)), h.journal.store.memory, h.command, limit);
      }
    }
  }

  lemma SideKeeps(d: Loop, a: Action, limit: nat)
    requires Safe(d, limit) && a.Side?
    ensures Safe(Step(d, a, limit), limit)
  {
    if a.action.Appending? || a.action.Acknowledging? || a.action.Reconciling? {
      SideLeaves(d.journal, a.action, limit);
      if Fatal(d.journal, a.action) {
        DownKeeps(Dispatch.Step(d.journal, a.action, limit), limit);
      }
    }
  }

  lemma EndKeeps(d: Loop, a: Action, limit: nat)
    requires Safe(d, limit) && a.End?
    ensures Safe(Step(d, a, limit), limit)
  {
    Books.EndBooked(d.scheduler, a.session, a.terminal, StartedBook(Memory(d)));
  }

  /* ---- Completions ---- */

  /** The next completion is of a command the journal holds as started, under its session: the journal
      operations it leads to find what they rely on and do not check. */
  lemma CompletionStarted(d: Loop, limit: nat)
    requires Safe(d, limit) && d.scheduler.channel != []
    ensures var k := d.scheduler.channel[0];
      Dispatch.Started(Memory(d), k.commandId) && Memory(d).commands[k.commandId].envelope.sessionId == k.sessionId
  {
    Books.CompletionInBook(d.scheduler, StartedBook(Memory(d)));
  }

  /** The scheduler lets go of a command that leaves the book. */
  lemma ReceiveForgets(st: Scheduler.State, book: Books.Book)
    requires Books.Ready(st, book) && WorkInHand(st, book) && st.channel != []
    ensures Runs.Receive(st).Some?
    ensures var r, id := Runs.Receive(st).value.state, st.channel[0].commandId;
      && Books.Ready(r, book - {id}) && WorkInHand(r, book - {id})
      && Books.InHand(r) == Books.InHand(st) - {id} - Books.KeptIds(st, st.channel[0].sessionId)
  {
    Books.ReceiveBooked(st, book);
    var r, id, s := Runs.Receive(st).value.state, st.channel[0].commandId, st.channel[0].sessionId;
    Books.BookForgets(r, book, id);
    if s in st.pending {
      assert Books.InBook(book, st.pending[s]) && Scheduler.IsCancel(st.pending[s]);
    }
  }

  /** The loop after the completion was recorded and what it released was scheduled. */
  ghost function Recorded(d: Loop, a: Action, limit: nat): Handed
    requires a.Deliver? && d.scheduler.channel != []
  {
    var k := d.scheduler.channel[0];
    Finishing(d.journal, k.sessionId, k.commandId, a.outcome, a.events, a.now, a.w1, a.w2, limit)
  }

  ghost predicate Steady(st: Scheduler.State, book: Books.Book) {
    Books.Ready(st, book) && WorkInHand(st, book)
  }

  lemma RecordedKeeps(d: Loop, a: Action, limit: nat)
    requires Safe(d, limit) && d.online && a.Deliver? && d.scheduler.channel != []
    ensures Runs.Receive(d.scheduler).Some?
    ensures var r, h := Runs.Receive(d.scheduler).value.state, Recorded(d, a, limit);
      var k := d.scheduler.channel[0];
      && Dispatch.Sound(h.journal, limit)
      && (h.command.Some? ==> h.command.value.sessionId == k.sessionId)
      && (!h.fatal ==>
            && Steady(Emit(r, h.command), StartedBook(h.journal.store.memory))
            && Hands(StartedBook(Memory(d)) - {k.commandId}, StartedBook(h.journal.store.memory), h.command)
            && Books.InHand(Emit(r, h.command))
               == Books.InHand(d.scheduler) - {k.commandId} - Books.KeptIds(d.scheduler, k.sessionId)
                  + Taken(r, h.command))
  {
    var k, book := d.scheduler.channel[0], StartedBook(Memory(d));
    CompletionStarted(d, limit);
    FinishingMoves(d.journal, k.sessionId, k.commandId, a.outcome, a.events, a.now, a.w1, a.w2, limit);
    ReceiveForgets(d.scheduler, book);
    var h := Recorded(d, a, limit);
    if !h.fatal {
      EmitKeeps(Runs.Receive(d.scheduler).value.state, book - {k.commandId}, h.journal.store.memory, h.command, limit);
    }
  }

  /** The cancellation kept for the session of a completion is another started command. */
  lemma KeptApart(st: Scheduler.State, book: Books.Book)
    requires Books.Ready(st, book) && st.channel != [] && st.channel[0].sessionId in st.pending
    ensures var k := st.channel[0];
      var c := st.pending[k.sessionId];
      && c.sessionId == k.sessionId && Scheduler.IsCancel(c) && Books.InBook(book - {k.commandId}, c)
      && Books.KeptIds(st, k.sessionId) == {c.commandId}
  {
    Runs.PoppedKeeps(st);
    assert st.pending[st.channel[0].sessionId].commandId in Books.PendingIds(st.pending);
  }

  /** The cancellation that a completion sets free is started and no longer in hand. */
  lemma FreedFresh(d: Loop, a: Action, limit: nat)
    requires Safe(d, limit) && d.online && a.Deliver? && d.scheduler.channel != []
    requires Runs.Receive(d.scheduler).Some? && Runs.Receive(d.scheduler).value.followup.Some?
    ensures var f, h := Runs.Receive(d.scheduler).value, Recorded(d, a, limit);
      var c := f.followup.value.command;
      && c.sessionId == d.scheduler.channel[0].sessionId && Scheduler.IsCancel(c)
      && (!h.fatal ==> Books.Fresh(Emit(f.state, h.command), StartedBook(h.journal.store.memory), c))
  {
    Books.FollowupIs(d.scheduler);
    KeptApart(d.scheduler, StartedBook(Memory(d)));
    RecordedKeeps(d, a, limit);
  }

  /** Scheduling a command of a cancelled session that has nothing in hand leaves room for a cancellation. */
  lemma EmitLeavesRoom(st: Scheduler.State, handed: Option<CommandEnvelope>, s: Name)
    requires Queues.Tidy(st) && s !in st.active && s !in st.pending && Queues.Count(st, s) == 0 && s in st.cancelled
    requires handed.Some? ==> handed.value.sessionId == s
    ensures var r := Emit(st, handed);
      s in r.cancelled && s !in r.pending && Queues.Count(r, s) <= if s in r.active then 0 else 1
  {
    if handed.Some? {
      var c := handed.value;
      var admitted := st.(known := st.known + {s});
      assert forall t :: Queues.Count(admitted, t) == Queues.Count(st, t);
      if Scheduler.IsCancel(c) {
        Queues.CancellationTidy(admitted, c);
      }
    }
  }

  lemma RescheduleKeeps(d: Loop, a: Action, limit: nat)
    requires Safe(d, limit) && d.online && a.Deliver? && d.scheduler.channel != [] && !Recorded(d, a, limit).fatal
    requires Runs.Receive(d.scheduler).Some? && Runs.Receive(d.scheduler).value.followup.Some?
    requires Runs.Receive(d.scheduler).value.followup.value.RescheduleCancellation?
    ensures var f, h := Runs.Receive(d.scheduler).value, Recorded(d, a, limit);
      var st := Emit(f.state, h.command);
      var r := Runs.ScheduleRuntime(st, f.followup.value.command);
      && Steady(r, StartedBook(h.journal.store.memory))
      && Books.InHand(r) == Books.InHand(st) + {f.followup.value.command.commandId}
  {
    var f, h := Runs.Receive(d.scheduler).value, Recorded(d, a, limit);
    RecordedKeeps(d, a, limit);
    FreedFresh(d, a, limit);
    Queues.ReceiveTidy(d.scheduler);
    EmitLeavesRoom(f.state, h.command, f.followup.value.command.sessionId);
    Books.RuntimeBooked(Emit(f.state, h.command), f.followup.value.command, StartedBook(h.journal.store.memory));
  }

  /** A cancellation that is finished at once: the journal closes it and hands out what it releases. */
  lemma FinishKeeps(j: Dispatch.Daemon, st: Scheduler.State, c: CommandEnvelope, a: Action, limit: nat)
    requires Dispatch.Sound(j, limit) && a.Deliver? && Steady(st, StartedBook(j.store.memory))
    requires Books.Fresh(st, StartedBook(j.store.memory), c)
    ensures var h := Finishing(j, c.sessionId, c.commandId, DispatchSucceeded, [], a.now, a.w3, a.w4, limit);
      && Dispatch.Sound(h.journal, limit)
      && (!h.fatal ==>
            var r := Runs.Cleanup(Emit(st, h.command), c.sessionId);
            && Steady(r, StartedBook(h.journal.store.memory))
            && Hands(StartedBook(j.store.memory) - {c.commandId}, StartedBook(h.journal.store.memory), h.command)
            && Books.InHand(r) == Books.InHand(st) + Taken(st, h.command))
  {
    var book := StartedBook(j.store.memory);
    var h := Finishing(j, c.sessionId, c.commandId, DispatchSucceeded, [], a.now, a.w3, a.w4, limit);
    FinishingMoves(j, c.sessionId, c.commandId, DispatchSucceeded, [], a.now, a.w3, a.w4, limit);
    if !h.fatal {
      Books.BookForgets(st, book, c.commandId);
      EmitKeeps(st, book - {c.commandId}, h.journal.store.memory, h.command, limit);
      Books.CleanupBooked(Emit(st, h.command), c.sessionId, StartedBook(h.journal.store.memory));
    }
  }

  lemma DeliverKeeps(d: Loop, a: Action, limit: nat)
    requires Safe(d, limit) && a.Deliver?
    ensures Safe(Step(d, a, limit), limit)
  {
    if d.online && d.scheduler.channel != [] {
      RecordedKeeps(d, a, limit);
      var f, h := Runs.Receive(d.scheduler).value, Recorded(d, a, limit);
      if h.fatal {
        DownKeeps(h.journal, limit);
      } else if f.followup.Some? {
        var c, st := f.followup.value.command, Emit(f.state, h.command);
        if f.followup.value.RescheduleCancellation? {
          RescheduleKeeps(d, a, limit);
        } else {
          FreedFresh(d, a, limit);
          FinishKeeps(h.journal, st, c, a, limit);
          var g := Finishing(h.journal, c.sessionId, c.commandId, DispatchSucceeded, [], a.now, a.w3, a.w4, limit);
          if g.fatal {
            DownKeeps(g.journal, limit);
          }
        }
      }
    }
  }

  lemma StepKeeps(d: Loop, a: Action, limit: nat)
    requires Safe(d, limit)
    ensures Safe(Step(d, a, limit), limit)
  {
    match a
    case CloseStale(_, _, _, _) => CloseStaleKeeps(d, a, limit);
    case Resume(_, _) => ResumeKeeps(d, a, limit);
    case Connect => ConnectKeeps(d, limit);
    case Frame(_, _) => FrameKeeps(d, a, limit);
    case Side(_) => SideKeeps(d, a, limit);
    case End(_, _) => EndKeeps(d, a, limit);
    case Deliver(_, _, _, _, _, _, _) => DeliverKeeps(d, a, limit);
    case Crash => DownKeeps(d.journal, limit);
  }

  lemma {:induction false} RunSafe(actions: seq<Action>, limit: nat)
    ensures Safe(Run(actions, limit), limit)
  {
    if actions == [] {
      LedgerInvariants.EmptyLedger(limit);
      BookKeyed(Memory(START), limit);
    } else {
      RunSafe(actions[..|actions| - 1], limit);
      StepKeeps(Run(actions[..|actions| - 1], limit), actions[|actions| - 1], limit);
    }
  }

  /* ---- Over every run ---- */

  /** On every run, the next completion is of a command the journal holds as started, under its session. */
  lemma CompletionsFindStarted(actions: seq<Action>, limit: nat)
    requires Run(actions, limit).scheduler.channel != []
    ensures var d := Run(actions, limit);
      var k := d.scheduler.channel[0];
      Dispatch.Started(Memory(d), k.commandId) && Memory(d).commands[k.commandId].envelope.sessionId == k.sessionId
  {
    RunSafe(actions, limit);
    CompletionStarted(Run(actions, limit), limit);
  }

  predicate WorkOf(l: Ledger, id: Name, s: Name) {
    id in l.commands && l.commands[id].envelope.sessionId == s && !Scheduler.IsCancel(l.commands[id].envelope)
  }

  /** On every run, the journal holds as started exactly the work that the scheduler has in hand, that
      recovery has handed out before the first handshake, or that recovery has yet to close. */
  lemma WorkInHandIffStarted(actions: seq<Action>, limit: nat, id: Name, s: Name)
    requires WorkOf(Memory(Run(actions, limit)), id, s)
    ensures var d := Run(actions, limit);
      Dispatch.Started(Memory(d), id)
      <==> || id in Books.InHand(d.scheduler) || id in Scheduler.Ids(d.recovered)
           || (!d.online && Stale(d, id))
  {
    RunSafe(actions, limit);
    var d := Run(actions, limit);
    InHandBooked(d.scheduler, StartedBook(Memory(d)));
    forall c | c in d.recovered ensures c.commandId in StartedBook(Memory(d)) {
      assert Books.InBook(StartedBook(Memory(d)), c);
    }
  }

  /** On every run, the scheduler has at most one piece of work of a session in hand. */
  lemma OneWorkInHand(actions: seq<Action>, limit: nat, id: Name, jd: Name, s: Name)
    requires var d := Run(actions, limit);
      && id in Books.InHand(d.scheduler) && jd in Books.InHand(d.scheduler)
      && WorkOf(Memory(d), id, s) && WorkOf(Memory(d), jd, s)
    ensures id == jd
  {
    RunSafe(actions, limit);
    var d := Run(actions, limit);
    InHandBooked(d.scheduler, StartedBook(Memory(d)));
    LedgerInvariants.OneInFlight(Memory(d), limit, id, jd);
  }

  /** On every run, a session has at most one queued command while it is active and two otherwise; two
      are both cancellations. */
  lemma QueuedPerSession(actions: seq<Action>, limit: nat, i: nat, j: nat)
    requires var q := Run(actions, limit).scheduler.queued; i < j < |q| && q[i].sessionId == q[j].sessionId
    ensures var st := Run(actions, limit).scheduler;
      && Scheduler.IsCancel(st.queued[i]) && Scheduler.IsCancel(st.queued[j])
      && st.queued[i].sessionId !in st.active && Queues.Count(st, st.queued[i].sessionId) == 2
  {
    RunSafe(actions, limit);
    var d := Run(actions, limit);
    var q, l := d.scheduler.queued, Memory(d);
    Order.TwoOfSession(q, i, j, q[i].sessionId);
    assert q[i] in q && q[j] in q;
    assert Books.InBook(StartedBook(l), q[i]) && Books.InBook(StartedBook(l), q[j]);
    assert !Runs.SameId(q, i, j);
    if !Scheduler.IsCancel(q[i]) {
      LedgerInvariants.OneInFlight(l, limit, q[i].commandId, q[j].commandId);
    }
  }

  /** On every run, handling a completion keeps the order of the queue within every session. */
  lemma DrainKeepsOrder(actions: seq<Action>, limit: nat)
    requires Run(actions, limit).scheduler.channel != []
    ensures var st := Runs.Cleared(Run(actions, limit).scheduler); Order.KeepsOrder(st.queued, Runs.PassOf(st))
  {
    RunSafe(actions, limit);
    var st := Run(actions, limit).scheduler;
    Runs.ClearedKeeps(st);
    Queues.ClearedTidy(st);
    var r := Runs.Cleared(st);
    assert forall s :: Queues.Count(r, s) <= if s in r.active.Keys then 1 else 2;
    Order.FewKeepOrder(r.queued, r.active.Keys, r.free, r.cancelled);
  }
}
