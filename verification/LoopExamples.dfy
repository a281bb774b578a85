/** Two runs of the main loop: one that drops a cancellation, and one that leaves two cancellations of a
    session in the queue. */
module LoopExamples {
  import opened Protocol
  import opened DeliveryLedger
  import opened DurableStore
  import opened DaemonLoop
  import opened LoopSafety
  import opened LoopOutcomes
  import Dispatch
  import LedgerInvariants
  import Scheduler = SchedulerState
  import Runs = SchedulerRuns
  import Books = SchedulerBook

  const SAVED := Writes(Saved, Saved)

  function Sent(e: CommandEnvelope): Action { Frame(e, SAVED) }

  function Intake(l: Ledger, e: CommandEnvelope, status: Status): Ledger {
    l.(commands := l.commands[e.commandId := CommandEntry(e, status)])
  }

  predicate New(l: Ledger, e: CommandEnvelope) {
    && ValidCommand(e) && e.commandId !in l.commands
    && forall id | id in l.commands :: !Related(l.commands[id].envelope, e)
  }

  /** It is the command's turn, or it is a cancellation overtaking started work. */
  predicate Overtakes(l: Ledger, e: CommandEnvelope, limit: nat) {
    && e.command.SessionCancel? && e.commandSeq > Expected(l, e.sessionId)
    && PriorDispatch(l, e) && |Waiting(l, e.sessionId)| < limit
  }

  lemma FrameStarts(d: Loop, e: CommandEnvelope, limit: nat)
    requires d.online && New(Memory(d), e)
    requires e.commandSeq == Expected(Memory(d), e.sessionId) || Overtakes(Memory(d), e, limit)
    ensures var r := Step(d, Sent(e), limit);
      && r.online && Memory(r) == Intake(Memory(d), e, DispatchStarted)
      && r.scheduler == Runs.Schedule(d.scheduler, e)
  {
    var l := Memory(d);
    assert !Conflicts(l, e);
    var taken := Intake(l, e, Received);
    if Overtakes(l, e, limit) {
      var id :| id in l.commands && l.commands[id].envelope.sessionId == e.sessionId
        && l.commands[id].envelope.commandSeq < e.commandSeq && l.commands[id].status.DispatchStarted?;
      assert id in taken.commands && taken.commands[id] == l.commands[id];
      assert PriorDispatch(taken, e);
    }
    assert MarkStarted(taken, e.commandId).commands == Intake(l, e, DispatchStarted).commands;
  }

  lemma FrameWaits(d: Loop, e: CommandEnvelope, limit: nat)
    requires d.online && New(Memory(d), e) && Memory(d).commands == map[]
    requires e.commandSeq > Expected(Memory(d), e.sessionId) && limit > 0
    ensures var r := Step(d, Sent(e), limit);
      r.online && Memory(r) == Intake(Memory(d), e, Received) && r.scheduler == d.scheduler
  {
    var l := Memory(d);
    assert !Conflicts(l, e) && Waiting(l, e.sessionId) == {};
    assert !PriorDispatch(Intake(l, e, Received), e);
  }

  lemma Connected(limit: nat)
    ensures Run([Connect], limit) == START.(online := true)
  {
    RunNext([], Connect, limit);
    assert [] + [Connect] == [Connect];
  }

  /* ---- A dropped cancellation ---- */

  /** The work of a session and two cancellations of it. */
  predicate WorkAndTwoCancels(w: CommandEnvelope, x: CommandEnvelope, y: CommandEnvelope) {
    && ValidCommand(w) && ValidCommand(x) && ValidCommand(y)
    && !Scheduler.IsCancel(w) && Scheduler.IsCancel(x) && Scheduler.IsCancel(y)
    && w.commandSeq == 1 && x.commandSeq == 2 && y.commandSeq == 3
    && w.sessionId == x.sessionId == y.sessionId
    && w.commandId != x.commandId && w.commandId != y.commandId && x.commandId != y.commandId
  }

  function DroppingRun(w: CommandEnvelope, x: CommandEnvelope, y: CommandEnvelope): seq<Action> {
    [Connect] + [Sent(w)] + [Sent(x)] + [Sent(y)]
  }

  lemma OneWaits(l: Ledger, s: Name, id: Name)
    requires Waiting(l, s) <= {id}
    ensures |Waiting(l, s)| <= 1
  {
    LedgerInvariants.SubsetSize(Waiting(l, s), {id});
  }

  lemma Interrupted(st: Scheduler.State, x: CommandEnvelope)
    requires Scheduler.IsCancel(x) && x.sessionId in st.active && x.sessionId !in st.pending
    ensures Runs.Schedule(st, x).pending == st.pending[x.sessionId := x]
  {
    var admitted := st.(known := st.known + {x.sessionId});
    var waiting := Scheduler.OfSession(st.queued, x.sessionId);
    assert Runs.Schedule(st, x) == Runs.SuppressAll(Runs.Interrupting(admitted, x), waiting);
    Runs.SuppressAllPending(Runs.Interrupting(admitted, x), waiting);
  }

  /** A second cancellation while the first is kept is started in the journal and dropped by the
      scheduler. */
  lemma SecondCancelDropped(w: CommandEnvelope, x: CommandEnvelope, y: CommandEnvelope, limit: nat)
    requires WorkAndTwoCancels(w, x, y) && limit >= 2
    ensures Orphan(Run(DroppingRun(w, x, y), limit), y.commandId)
  {
    Connected(limit);
    var d1 := Run([Connect], limit);
    FrameStarts(d1, w, limit);
    RunNext([Connect], Sent(w), limit);
    var d2 := Run([Connect] + [Sent(w)], limit);
    assert Memory(d2).commands[w.commandId] == CommandEntry(w, DispatchStarted);
    assert d2.scheduler.active == map[w.sessionId := w.commandId];
    OneWaits(Memory(d2), w.sessionId, w.commandId);
    FrameStarts(d2, x, limit);
    RunNext([Connect] + [Sent(w)], Sent(x), limit);
    var d3 := Run([Connect] + [Sent(w)] + [Sent(x)], limit);
    Interrupted(d2.scheduler, x);
    assert Memory(d3).commands[w.commandId] == CommandEntry(w, DispatchStarted);
    OneWaits(Memory(d3), w.sessionId, x.commandId);
    FrameStarts(d3, y, limit);
    RunNext([Connect] + [Sent(w)] + [Sent(x)], Sent(y), limit);
    RunSafe([Connect] + [Sent(w)] + [Sent(x)], limit);
    RunSafe(DroppingRun(w, x, y), limit);
    SecondDropped(d3.scheduler, Memory(d3), y, limit);
  }

  lemma SecondDropped(st: Scheduler.State, l: Ledger, y: CommandEnvelope, limit: nat)
    requires Books.Ready(st, StartedBook(l)) && New(l, y) && Books.Dropped(st, y)
    requires LedgerInvariants.CommandInv(Intake(l, y, DispatchStarted), limit)
    ensures y.commandId !in Books.InHand(Runs.Schedule(st, y))
  {
    StartedOne(l, Intake(l, y, DispatchStarted), y);
    InHandBooked(st, StartedBook(l));
    EmitKeeps(st, StartedBook(l), Intake(l, y, DispatchStarted), Some(y), limit);
  }

  /** From then on, until the process ends, that command blocks its session. */
  lemma DroppedForGood(w: CommandEnvelope, x: CommandEnvelope, y: CommandEnvelope, more: seq<Action>, limit: nat)
    requires WorkAndTwoCancels(w, x, y) && limit >= 2 && Throughout(DroppingRun(w, x, y), more, limit)
    ensures var d := Run(DroppingRun(w, x, y) + more, limit);
      Orphan(d, y.commandId) && Blocks(Memory(d), Memory(d).commands[y.commandId].envelope)
  {
    SecondCancelDropped(w, x, y, limit);
    DroppedBlocks(DroppingRun(w, x, y), more, limit, y.commandId);
  }

  /* ---- Two cancellations in the queue ---- */

  /** First commands of five sessions, and two cancellations of the first. */
  predicate Crowd(w: CommandEnvelope, x: CommandEnvelope, y: CommandEnvelope, others: seq<CommandEnvelope>) {
    && WorkAndTwoCancels(w, x, y) && |others| == 4
    && (forall c | c in others :: ValidCommand(c) && !Scheduler.IsCancel(c) && c.commandSeq == 1)
    && (forall c | c in others :: c.commandId !in {w.commandId, x.commandId, y.commandId} && c.sessionId != w.sessionId)
    && forall i, j | 0 <= i < j < |others| ::
         others[i].commandId != others[j].commandId && others[i].sessionId != others[j].sessionId
  }

  function PermitsRun(w: CommandEnvelope, x: CommandEnvelope, y: CommandEnvelope, others: seq<CommandEnvelope>)
    : seq<Action>
    requires |others| == 4
  {
    [Connect] + [Sent(x)] + [Sent(w)] + [Sent(y)] + [Sent(others[0])] + [Sent(others[1])] + [Sent(others[2])]
  }

  /** The first cancellation arrives before the work it cancels; four other commands take the permits,
      the last of them after the work has ended and before its completion is handled. */
  function CrowdingRun(w: CommandEnvelope, x: CommandEnvelope, y: CommandEnvelope, others: seq<CommandEnvelope>)
    : seq<Action>
    requires |others| == 4
  {
    PermitsRun(w, x, y, others) + [End(w.sessionId, false)] + [Sent(others[3])]
  }

  const DONE := Deliver(DispatchSucceeded, [], "now", SAVED, SAVED, SAVED, SAVED)

  /** The journal has `w` and `y` started, `x` waiting, and the commands of `more`. */
  ghost predicate Holds(l: Ledger, w: CommandEnvelope, x: CommandEnvelope, y: CommandEnvelope,
                        more: seq<CommandEnvelope>) {
    && l.sessions == map[]
    && l.commands.Keys == {w.commandId, x.commandId, y.commandId} + Scheduler.Ids(more)
    && l.commands[w.commandId] == CommandEntry(w, DispatchStarted)
    && l.commands[x.commandId] == CommandEntry(x, Received)
    && l.commands[y.commandId] == CommandEntry(y, DispatchStarted)
    && forall c | c in more :: l.commands[c.commandId].envelope == c
  }

  /** The work of `w` is active or has just ended, `y` is kept for it, and those of `more` are active. */
  ghost predicate Works(st: Scheduler.State, w: CommandEnvelope, y: CommandEnvelope, more: seq<CommandEnvelope>,
                        free: nat, channel: seq<Scheduler.Completion>) {
    && st.active.Keys == {w.sessionId} + Scheduler.Sessions(more) && st.active[w.sessionId] == w.commandId
    && st.running == (if channel == [] then st.active.Keys else st.active.Keys - {w.sessionId})
    && st.free == free && st.queued == [] && st.channel == channel
    && st.pending == map[w.sessionId := y] && st.cancelled == {w.sessionId} && st.ended == {} && st.suppressed == map[]
  }

  ghost predicate Waits(d: Loop, w: CommandEnvelope, x: CommandEnvelope, y: CommandEnvelope,
                        more: seq<CommandEnvelope>, free: nat, channel: seq<Scheduler.Completion>) {
    d.online && Holds(Memory(d), w, x, y, more) && Works(d.scheduler, w, y, more, free, channel)
  }

  lemma OtherNew(l: Ledger, w: CommandEnvelope, x: CommandEnvelope, y: CommandEnvelope, more: seq<CommandEnvelope>,
                 c: CommandEnvelope)
    requires WorkAndTwoCancels(w, x, y) && Holds(l, w, x, y, more) && ValidCommand(c)
    requires c.commandId !in {w.commandId, x.commandId, y.commandId} + Scheduler.Ids(more)
    requires c.sessionId !in {w.sessionId} + Scheduler.Sessions(more)
    ensures New(l, c) && Processed(l, c.sessionId) == 0
    ensures Holds(Intake(l, c, DispatchStarted), w, x, y, more + [c])
  {
    forall id | id in l.commands ensures !Related(l.commands[id].envelope, c) {
      assert id in {w.commandId, x.commandId, y.commandId} || exists m | m in more :: m.commandId == id;
    }
    Runs.ConcatIds(more, [c]);
    assert Scheduler.Ids([c]) == {c.commandId};
  }

  lemma OtherWorks(st: Scheduler.State, w: CommandEnvelope, y: CommandEnvelope, more: seq<CommandEnvelope>,
                   free: nat, channel: seq<Scheduler.Completion>, c: CommandEnvelope)
    requires Works(st, w, y, more, free, channel) && free > 0 && !Scheduler.IsCancel(c)
    requires c.sessionId !in {w.sessionId} + Scheduler.Sessions(more)
    ensures Works(Runs.Schedule(st, c), w, y, more + [c], free - 1, channel)
  {
    Runs.ConcatIds(more, [c]);
    assert Scheduler.Sessions([c]) == {c.sessionId};
  }

  lemma OtherStarts(d: Loop, w: CommandEnvelope, x: CommandEnvelope, y: CommandEnvelope, more: seq<CommandEnvelope>,
                    free: nat, channel: seq<Scheduler.Completion>, c: CommandEnvelope, limit: nat)
    requires WorkAndTwoCancels(w, x, y) && Waits(d, w, x, y, more, free, channel) && free > 0
    requires ValidCommand(c) && !Scheduler.IsCancel(c) && c.commandSeq == 1
    requires c.commandId !in {w.commandId, x.commandId, y.commandId} + Scheduler.Ids(more)
    requires c.sessionId !in {w.sessionId} + Scheduler.Sessions(more)
    ensures Waits(Step(d, Sent(c), limit), w, x, y, more + [c], free - 1, channel)
  {
    OtherNew(Memory(d), w, x, y, more, c);
    OtherWorks(d.scheduler, w, y, more, free, channel, c);
    FrameStarts(d, c, limit);
  }

  lemma ThreeWait(w: CommandEnvelope, x: CommandEnvelope, y: CommandEnvelope, limit: nat)
    requires WorkAndTwoCancels(w, x, y) && limit >= 2
    ensures Waits(Run([Connect] + [Sent(x)] + [Sent(w)] + [Sent(y)], limit), w, x, y, [], 3, [])
  {
    Connected(limit);
    var d1 := Run([Connect], limit);
    FrameWaits(d1, x, limit);
    RunNext([Connect], Sent(x), limit);
    var d2 := Run([Connect] + [Sent(x)], limit);
    FrameStarts(d2, w, limit);
    RunNext([Connect] + [Sent(x)], Sent(w), limit);
    var d3 := Run([Connect] + [Sent(x)] + [Sent(w)], limit);
    assert Memory(d3).commands[w.commandId] == CommandEntry(w, DispatchStarted);
    OneWaits(Memory(d3), w.sessionId, x.commandId);
    FrameStarts(d3, y, limit);
    RunNext([Connect] + [Sent(x)] + [Sent(w)], Sent(y), limit);
    var st := Scheduler.IDLE.(known := {w.sessionId}, active := map[w.sessionId := w.commandId],
                              running := {w.sessionId}, free := 3, spawned := [w]);
    assert d3.scheduler == st;
    assert Runs.Schedule(st, y) == st.(cancelled := {w.sessionId}, pending := map[w.sessionId := y]);
    assert Scheduler.Ids([]) == {} && Scheduler.Sessions([]) == {};
  }

  lemma OtherApart(w: CommandEnvelope, x: CommandEnvelope, y: CommandEnvelope, others: seq<CommandEnvelope>, i: nat)
    requires Crowd(w, x, y, others) && i < 4
    ensures var c := others[i];
      && ValidCommand(c) && !Scheduler.IsCancel(c) && c.commandSeq == 1
      && c.commandId !in {w.commandId, x.commandId, y.commandId} + Scheduler.Ids(others[..i])
      && c.sessionId !in {w.sessionId} + Scheduler.Sessions(others[..i])
  {
    assert others[i] in others;
  }

  lemma OtherNext(d: Loop, w: CommandEnvelope, x: CommandEnvelope, y: CommandEnvelope, others: seq<CommandEnvelope>,
                  i: nat, free: nat, channel: seq<Scheduler.Completion>, limit: nat)
    requires Crowd(w, x, y, others) && i < 4 && Waits(d, w, x, y, others[..i], free, channel) && free > 0
    ensures Waits(Step(d, Sent(others[i]), limit), w, x, y, others[..i + 1], free - 1, channel)
  {
    OtherApart(w, x, y, others, i);
    assert others[..i] + [others[i]] == others[..i + 1];
    OtherStarts(d, w, x, y, others[..i], free, channel, others[i], limit);
  }

  lemma WorkEnds(d: Loop, w: CommandEnvelope, x: CommandEnvelope, y: CommandEnvelope, more: seq<CommandEnvelope>,
                 free: nat, limit: nat)
    requires Waits(d, w, x, y, more, free, [])
    ensures Waits(Step(d, End(w.sessionId, false), limit), w, x, y, more, free + 1,
                  [Scheduler.Completion(w.sessionId, w.commandId, false)])
  {
  }

  lemma PermitsTaken(w: CommandEnvelope, x: CommandEnvelope, y: CommandEnvelope, others: seq<CommandEnvelope>,
                     limit: nat)
    requires Crowd(w, x, y, others) && limit >= 2
    ensures Waits(Run(PermitsRun(w, x, y, others), limit), w, x, y, others[..3], 0, [])
  {
    ThreeWait(w, x, y, limit);
    var r := [Connect] + [Sent(x)] + [Sent(w)] + [Sent(y)];
    OtherNext(Run(r, limit), w, x, y, others, 0, 3, [], limit);
    RunNext(r, Sent(others[0]), limit);
    var r1 := r + [Sent(others[0])];
    OtherNext(Run(r1, limit), w, x, y, others, 1, 2, [], limit);
    RunNext(r1, Sent(others[1]), limit);
    var r2 := r1 + [Sent(others[1])];
    OtherNext(Run(r2, limit), w, x, y, others, 2, 1, [], limit);
    RunNext(r2, Sent(others[2]), limit);
  }

  lemma Crowded(w: CommandEnvelope, x: CommandEnvelope, y: CommandEnvelope, others: seq<CommandEnvelope>, limit: nat)
    requires Crowd(w, x, y, others) && limit >= 2
    ensures Waits(Run(CrowdingRun(w, x, y, others), limit), w, x, y, others, 0,
                  [Scheduler.Completion(w.sessionId, w.commandId, false)])
  {
    PermitsTaken(w, x, y, others, limit);
    var r := PermitsRun(w, x, y, others);
    LateComer(Run(r, limit), w, x, y, others, limit);
    RunNext(r, End(w.sessionId, false), limit);
    RunNext(r + [End(w.sessionId, false)], Sent(others[3]), limit);
  }

  lemma LateComer(d: Loop, w: CommandEnvelope, x: CommandEnvelope, y: CommandEnvelope, others: seq<CommandEnvelope>,
                  limit: nat)
    requires Crowd(w, x, y, others) && Waits(d, w, x, y, others[..3], 0, [])
    ensures Waits(Step(Step(d, End(w.sessionId, false), limit), Sent(others[3]), limit), w, x, y, others, 0,
                  [Scheduler.Completion(w.sessionId, w.commandId, false)])
  {
    var ended := Step(d, End(w.sessionId, false), limit);
    WorkEnds(d, w, x, y, others[..3], 0, limit);
    OtherNext(ended, w, x, y, others, 3, 1, [Scheduler.Completion(w.sessionId, w.commandId, false)], limit);
    assert others[..4] == others;
  }

  /** The scheduler takes the completion of `w` and finds `y` to be scheduled. */
  lemma WorkReceived(d: Loop, w: CommandEnvelope, x: CommandEnvelope, y: CommandEnvelope, more: seq<CommandEnvelope>)
    requires Waits(d, w, x, y, more, 0, [Scheduler.Completion(w.sessionId, w.commandId, false)])
    requires y.sessionId == w.sessionId
    ensures var f := Runs.Receive(d.scheduler);
      && f.Some? && f.value.followup == Some(Scheduler.RescheduleCancellation(y))
      && f.value.state.queued == [] && f.value.state.free == 0 && f.value.state.pending == map[]
      && w.sessionId !in f.value.state.active && w.sessionId in f.value.state.cancelled
  {
    var st := Runs.Cleared(d.scheduler);
    assert Runs.PassOf(st) == Scheduler.Pass([], [], [], []);
    assert Scheduler.QueueAfter(Runs.PassOf(st)) == [];
    assert Runs.DrainQueue(st) == st.(queued := []);
    assert st.pending == map[];
  }

  lemma JournalCloses(j: Dispatch.Daemon, id: Name, limit: nat)
    requires Dispatch.Sound(j, limit) && Dispatch.Started(j.store.memory, id)
    ensures var h := Closing(j, id, DispatchSucceeded, [], "now", SAVED, limit);
      var l := h.journal.store.memory;
      && !h.fatal && LedgerInvariants.CommandInv(l, limit)
      && l.commands == j.store.memory.commands[id :=
           j.store.memory.commands[id].(status := Status.Terminal(DispatchSucceeded))]
  {
    LedgerInvariants.FinishCommandInv(j.store.memory, id, DispatchSucceeded, [], "now", limit);
  }

  lemma TurnTaken(st: Store, s: Name, x: CommandEnvelope, limit: nat)
    requires LedgerInvariants.CommandInv(st.memory, limit) && ValidCommand(x) && x.sessionId == s
    requires Ready(st.memory, x.commandId, s) && st.memory.commands[x.commandId].envelope == x
    ensures var r := AcceptNext(st, s, limit, Saved, Saved).1;
      r.Ok? && r.value.Some? && r.value.value.command == Some(x)
  {
    var r := ReadyId(st.memory, s);
    assert r.Some?;
    LedgerInvariants.SlotUnique(st.memory, r.value, x.commandId, s, x.commandSeq);
    LedgerInvariants.OwnIdentity(st.memory, x.commandId);
  }

  /** The journal closes `w`, which makes it the turn of `x`. */
  lemma JournalReleases(d: Loop, w: CommandEnvelope, x: CommandEnvelope, y: CommandEnvelope, more: seq<CommandEnvelope>,
                        channel: seq<Scheduler.Completion>, limit: nat)
    requires WorkAndTwoCancels(w, x, y) && Waits(d, w, x, y, more, 0, channel) && Dispatch.Sound(d.journal, limit)
    ensures var h := Finishing(d.journal, w.sessionId, w.commandId, DispatchSucceeded, [], "now", SAVED, SAVED, limit);
      !h.fatal && h.command == Some(x)
  {
    JournalCloses(d.journal, w.commandId, limit);
    var closed := Closing(d.journal, w.commandId, DispatchSucceeded, [], "now", SAVED, limit);
    TurnOf(closed.journal.store.memory, w, x, limit);
    TurnTaken(closed.journal.store, w.sessionId, x, limit);
  }

  lemma TurnOf(l: Ledger, w: CommandEnvelope, x: CommandEnvelope, limit: nat)
    requires LedgerInvariants.CommandInv(l, limit)
    requires w.commandSeq == 1 && x.commandSeq == 2 && w.sessionId == x.sessionId
    requires w.commandId in l.commands
    requires l.commands[w.commandId].envelope == w && l.commands[w.commandId].status.Terminal?
    requires x.commandId in l.commands && l.commands[x.commandId] == CommandEntry(x, Received)
    ensures Processed(l, w.sessionId) == 1 && Ready(l, x.commandId, w.sessionId)
  {
    assert InSlot(l, w.commandId, w.sessionId, 1) && TerminalAt(l, w.sessionId, 1);
    assert InSlot(l, x.commandId, w.sessionId, 2) && !TerminalAt(l, w.sessionId, Expected(l, w.sessionId));
  }

  lemma DoneIs(d: Loop, k: Scheduler.Completion, x: CommandEnvelope, y: CommandEnvelope, limit: nat)
    requires d.online && d.scheduler.channel == [k] && Runs.Receive(d.scheduler).Some?
    requires Runs.Receive(d.scheduler).value.followup == Some(Scheduler.RescheduleCancellation(y))
    requires var h := Finishing(d.journal, k.sessionId, k.commandId, DispatchSucceeded, [], "now", SAVED, SAVED, limit);
      !h.fatal && h.command == Some(x)
    ensures Step(d, DONE, limit).scheduler
         == Runs.ScheduleRuntime(Runs.Schedule(Runs.Receive(d.scheduler).value.state, x), y)
  {
  }

  lemma BothQueued(st: Scheduler.State, x: CommandEnvelope, y: CommandEnvelope)
    requires Scheduler.IsCancel(x) && Scheduler.IsCancel(y) && x.sessionId == y.sessionId
    requires x.sessionId !in st.active && x.sessionId !in st.pending && st.queued == [] && st.free == 0
    ensures Runs.ScheduleRuntime(Runs.Schedule(st, x), y).queued == [x, y]
  {
    assert Runs.Schedule(st, x).queued == [] + [x];
    assert [x] + [y] == [x, y];
  }

  /** Both cancellations are queued: for want of a permit, one released by the journal and one that was
      kept for the work that ended. */
  lemma TwoCancelsQueued(w: CommandEnvelope, x: CommandEnvelope, y: CommandEnvelope, others: seq<CommandEnvelope>,
                         limit: nat)
    requires Crowd(w, x, y, others) && limit >= 2
    ensures Run(CrowdingRun(w, x, y, others) + [DONE], limit).scheduler.queued == [x, y]
  {
    var run := CrowdingRun(w, x, y, others);
    var d, k := Run(run, limit), Scheduler.Completion(w.sessionId, w.commandId, false);
    Crowded(w, x, y, others, limit);
    RunSafe(run, limit);
    RunNext(run, DONE, limit);
    WorkReceived(d, w, x, y, others);
    JournalReleases(d, w, x, y, others, [k], limit);
    DoneIs(d, k, x, y, limit);
    BothQueued(Runs.Receive(d.scheduler).value.state, x, y);
  }
}
