/** The daemon's main loop: journal and scheduler driven together by frames, completions, failures
    and restarts. */
module DaemonLoop {
  import opened Protocol
  import opened DeliveryLedger
  import opened DurableStore
  import Dispatch
  import LedgerInvariants
  import Scheduler = SchedulerState
  import Runs = SchedulerRuns
  import Books = SchedulerBook

  /** `recovered` are the commands that recovery handed out before the first handshake. */
  datatype Loop = Loop(
    journal: Dispatch.Daemon, scheduler: Scheduler.State, recovered: seq<CommandEnvelope>, online: bool)

  const START := Loop(Dispatch.FRESH, Scheduler.IDLE, [], false)

  /** How the two rewrites of one journal operation end. */
  datatype Writes = Writes(first: Persist, second: Persist)

  datatype Action =
    | CloseStale(id: Name, outcome: Outcome, now: string, w: Writes)
    | Resume(session: Name, w: Writes)
    | Connect
    | Frame(command: CommandEnvelope, w: Writes)
    | Side(action: Dispatch.Action)
    | End(session: Name, terminal: bool)
    | Deliver(outcome: Outcome, events: seq<Event>, now: string, w1: Writes, w2: Writes, w3: Writes, w4: Writes)
    | Crash

  /** A journal operation: the journal after it, the command it handed out, and whether its error
      ends the process. */
  datatype Handed = Handed(journal: Dispatch.Daemon, command: Option<CommandEnvelope>, fatal: bool)

  /** A frame that conflicts is answered, one beyond the gap limit closes the connection; any other
      error ends the process. */
  ghost function Accepting(j: Dispatch.Daemon, e: CommandEnvelope, w: Writes, limit: nat): Handed {
    var control := e.command.SessionCancel?;
    var r := Accept(j.store, e, control, limit, w.first, w.second).1;
    Handed(Dispatch.Step(j, Dispatch.AcceptCommand(e, control, w.first, w.second), limit),
           if r.Ok? then r.value.command else None,
           r.Err? && !r.error.IdentityConflict? && !r.error.GapOverflow?)
  }

  ghost function Releasing(j: Dispatch.Daemon, s: Name, w: Writes, limit: nat): Handed {
    var r := AcceptNext(j.store, s, limit, w.first, w.second).1;
    Handed(Dispatch.Step(j, Dispatch.AcceptReady(s, w.first, w.second), limit),
           if r.Ok? && r.value.Some? then r.value.value.command else None, r.Err?)
  }

  ghost function Closing(j: Dispatch.Daemon, id: Name, outcome: Outcome, events: seq<Event>, now: string, w: Writes,
                         limit: nat): Handed {
    var r := Complete(j.store, id, outcome, events, now, w.first, w.second).1;
    Handed(Dispatch.Step(j, Dispatch.CompleteCommand(id, outcome, events, now, w.first, w.second), limit), None, r.Err?)
  }

  /** Record the end of a command, then hand out what it released. */
  ghost function Finishing(j: Dispatch.Daemon, s: Name, id: Name, outcome: Outcome, events: seq<Event>, now: string,
                           w: Writes, v: Writes, limit: nat): Handed {
    var closed := Closing(j, id, outcome, events, now, w, limit);
    if closed.fatal then closed else Releasing(closed.journal, s, v, limit)
  }

  function Emit(st: Scheduler.State, handed: Option<CommandEnvelope>): Scheduler.State {
    match handed
    case None => st
    case Some(c) => Runs.Schedule(st, c)
  }

  function EmitAll(st: Scheduler.State, cs: seq<CommandEnvelope>): Scheduler.State {
    if cs == [] then st else Runs.Schedule(EmitAll(st, cs[..|cs| - 1]), cs[|cs| - 1])
  }

  /** The process ends; the next one opens the journal file and has an empty scheduler. */
  ghost function Down(j: Dispatch.Daemon, limit: nat): Loop {
    Loop(Dispatch.Step(j, Dispatch.Restart, limit), Scheduler.IDLE, [], false)
  }

  function StartedBook(l: Ledger): Books.Book {
    map id | id in l.commands && l.commands[id].status.DispatchStarted? :: l.commands[id].envelope
  }

  function Memory(d: Loop): Ledger {
    d.journal.store.memory
  }

  /** A started command that no part of the new process knows of. */
  predicate Stale(d: Loop, id: Name) {
    Dispatch.Started(Memory(d), id) && id !in Scheduler.Ids(d.recovered)
  }

  /** A completion: the scheduler lets go of its command and drains, the journal records its end and
      hands out the next one, and a cancellation that was kept is finished or scheduled. */
  ghost function Delivered(d: Loop, a: Action, limit: nat): Loop
    requires a.Deliver? && d.scheduler.channel != []
  {
    var k, finished := d.scheduler.channel[0], Runs.Receive(d.scheduler);
    if finished.None? then Down(d.journal, limit)
    else
      var h := Finishing(d.journal, k.sessionId, k.commandId, a.outcome, a.events, a.now, a.w1, a.w2, limit);
      if h.fatal then Down(h.journal, limit)
      else Followed(d.(journal := h.journal, scheduler := Emit(finished.value.state, h.command)),
                    finished.value.followup, a, limit)
  }

  ghost function Followed(d: Loop, followup: Option<Scheduler.Followup>, a: Action, limit: nat): Loop
    requires a.Deliver?
  {
    match followup
    case None => d
    case Some(RescheduleCancellation(c)) => d.(scheduler := Runs.ScheduleRuntime(d.scheduler, c))
    case Some(FinishCancellation(c)) =>
      var h := Finishing(d.journal, c.sessionId, c.commandId, DispatchSucceeded, [], a.now, a.w3, a.w4, limit);
      if h.fatal then Down(h.journal, limit)
      else d.(journal := h.journal, scheduler := Runs.Cleanup(Emit(d.scheduler, h.command), c.sessionId))
  }

  /** Recovery first closes what an earlier process left started, then hands out what is ready; work
      begins with the first handshake. */
  ghost function Step(d: Loop, a: Action, limit: nat): Loop {
    match a
    case CloseStale(id, outcome, now, w) =>
      if d.online || !Stale(d, id) then d
      else
        var h := Closing(d.journal, id, outcome, [], now, w, limit);
        if h.fatal then Down(h.journal, limit) else d.(journal := h.journal)
    case Resume(s, w) =>
      if d.online || exists id :: Stale(d, id) then d
      else
        var h := Releasing(d.journal, s, w, limit);
        if h.fatal then Down(h.journal, limit)
        else d.(journal := h.journal, recovered := d.recovered + if h.command.Some? then [h.command.value] else [])
    case Connect =>
      if d.online || exists id :: Stale(d, id) then d
      else Loop(d.journal, EmitAll(d.scheduler, d.recovered), [], true)
    case Frame(e, w) =>
      if !d.online then d
      else
        var h := Accepting(d.journal, e, w, limit);
        if h.fatal then Down(h.journal, limit)
        else d.(journal := h.journal, scheduler := Emit(d.scheduler, h.command))
    case Side(action) =>
      if !(action.Appending? || action.Acknowledging? || action.Reconciling?) then d
      else SideStep(d, action, limit)
    case End(s, terminal) => d.(scheduler := Runs.WorkerEnds(d.scheduler, s, terminal))
    case Deliver(_, _, _, _, _, _, _) => if !d.online || d.scheduler.channel == [] then d else Delivered(d, a, limit)
    case Crash => Down(d.journal, limit)
  }

  /** Whether the error of a journal operation ends the process: an acknowledgement that conflicts is
      answered, and so is an append that is refused. */
  ghost predicate Fatal(j: Dispatch.Daemon, action: Dispatch.Action) {
    match action
    case Appending(id, s, event, now, p) => AppendEvent(j.store, id, s, event, now, p).1 == Err(IoError)
    case Acknowledging(ack, p, q) =>
      var r := AckEvent(j.store, ack, p, q).1; r.Err? && !r.error.IdentityConflict?
    case Reconciling(snapshot, p) => ApplySnapshot(j.store, snapshot, p).1.Err?
    case _ => false
  }

  /** An append, an acknowledgement or a snapshot touches only the journal. */
  ghost function SideStep(d: Loop, action: Dispatch.Action, limit: nat): Loop {
    var next := Dispatch.Step(d.journal, action, limit);
    if Fatal(d.journal, action) then Down(next, limit) else d.(journal := next)
  }

  ghost function Run(actions: seq<Action>, limit: nat): Loop {
    if actions == [] then START else Step(Run(actions[..|actions| - 1], limit), actions[|actions| - 1], limit)
  }
}
