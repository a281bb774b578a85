/** Whole histories of the scheduler: every admitted command is in exactly one place until its
    completion is handled, once. */
module SchedulerHistory {
  import opened Protocol
  import opened SchedulerState
  import opened SchedulerRuns

  /** `works` are the admitted commands that are not cancellations; `finished` lists the commands
      whose completion was handled. */
  datatype Trace = Trace(state: State, admitted: set<Name>, works: set<Name>, finished: seq<Name>)

  const START := Trace(IDLE, {}, {}, [])

  datatype Action =
    | Admit(command: CommandEnvelope)
    | Resume(command: CommandEnvelope)
    | End(session: Name, terminal: bool)
    | Deliver
    | Conclude(session: Name)
    | Shutdown

  /** A command id is admitted once; only a cancellation that is no longer in hand is scheduled
      again, as the follow-up of the work it interrupted. */
  function Step(t: Trace, a: Action): Trace {
    match a
    case Admit(c) =>
      if c.commandId in t.admitted then t
      else
        Trace(Schedule(t.state, c), t.admitted + {c.commandId},
              if IsCancel(c) then t.works else t.works + {c.commandId}, t.finished)
    case Resume(c) =>
      if IsCancel(c) && c.commandId in t.admitted - t.works && c.commandId !in Held(t.state)
      then t.(state := ScheduleRuntime(t.state, c)) else t
    case End(s, terminal) => t.(state := WorkerEnds(t.state, s, terminal))
    case Deliver =>
      if t.state.channel == [] || Receive(t.state).None? then t
      else t.(state := Receive(t.state).value.state, finished := t.finished + [t.state.channel[0].commandId])
    case Conclude(s) => t.(state := Cleanup(t.state, s))
    case Shutdown => t.(state := t.state.(cancelled := t.state.cancelled + t.state.active.Keys))
  }

  function Run(actions: seq<Action>): Trace {
    if actions == [] then START else Step(Run(actions[..|actions| - 1]), actions[|actions| - 1])
  }

  function Done(t: Trace): set<Name> {
    set id | id in t.finished
  }

  ghost predicate FinishedOnce(t: Trace) {
    forall i, j | 0 <= i < j < |t.finished| && t.finished[i] in t.works :: t.finished[i] != t.finished[j]
  }

  ghost predicate Balanced(t: Trace) {
    && Held(t.state) <= t.admitted && t.works <= t.admitted
    && t.works <= Held(t.state) + Done(t) && Held(t.state) * Done(t) * t.works == {}
    && FinishedOnce(t) && Done(t) <= t.admitted
  }

  ghost predicate Sound(t: Trace) {
    Inv(t.state) && NotStranded(t.state) && Balanced(t)
  }

  lemma BalanceAdmitted(t: Trace, r: Trace, c: CommandEnvelope, before: set<Name>, after: set<Name>)
    requires Balanced(t) && c.commandId !in t.admitted && before == Held(t.state) && after == Held(r.state)
    requires r.admitted == t.admitted + {c.commandId} && r.finished == t.finished
    requires r.works == if IsCancel(c) then t.works else t.works + {c.commandId}
    requires before <= after <= before + {c.commandId} && (!IsCancel(c) ==> c.commandId in after)
    ensures Balanced(r)
  {
    assert Done(r) == Done(t);
    assert forall i | 0 <= i < |t.finished| :: t.finished[i] in Done(t);
  }

  lemma AdmitKeeps(t: Trace, c: CommandEnvelope)
    requires Sound(t) && c.commandId !in t.admitted
    ensures Sound(Step(t, Admit(c))) && SpawnsLawful(t.state, Step(t, Admit(c)).state)
  {
    ScheduleKeeps(t.state, c);
    BalanceAdmitted(t, Step(t, Admit(c)), c, Held(t.state), Held(Schedule(t.state, c)));
  }

  lemma BalanceDelivered(t: Trace, r: Trace, id: Name, before: set<Name>, after: set<Name>)
    requires Balanced(t) && before == Held(t.state) && after == Held(r.state)
    requires r.admitted == t.admitted && r.works == t.works && r.finished == t.finished + [id]
    requires id in before && after == before - {id}
    ensures Balanced(r)
  {
    assert Done(r) == Done(t) + {id};
    forall i | 0 <= i < |t.finished| && t.finished[i] in t.works ensures t.finished[i] != id {
      assert t.finished[i] in Done(t) && t.finished[i] !in before * Done(t) * t.works;
    }
  }

  lemma DeliveredSound(t: Trace, next: State, id: Name)
    requires Balanced(t) && Inv(next) && NotStranded(next)
    requires id in Held(t.state) && Held(next) == Held(t.state) - {id}
    ensures Sound(Trace(next, t.admitted, t.works, t.finished + [id]))
  {
    BalanceDelivered(t, Trace(next, t.admitted, t.works, t.finished + [id]), id, Held(t.state), Held(next));
  }

  lemma DeliverIs(t: Trace)
    requires t.state.channel != [] && Receive(t.state).Some?
    ensures Step(t, Deliver)
         == Trace(Receive(t.state).value.state, t.admitted, t.works, t.finished + [t.state.channel[0].commandId])
  {
  }

  lemma DeliverKeeps(t: Trace)
    requires Sound(t) && t.state.channel != []
    ensures Sound(Step(t, Deliver)) && SpawnsLawful(t.state, Step(t, Deliver).state)
  {
    ReceiveKeeps(t.state);
    DeliverIs(t);
    DeliveredSound(t, Receive(t.state).value.state, t.state.channel[0].commandId);
  }

  lemma BalanceKept(t: Trace, r: Trace, before: set<Name>, after: set<Name>)
    requires Balanced(t) && before == Held(t.state) && after == Held(r.state)
    requires r.admitted == t.admitted && r.works == t.works && r.finished == t.finished
    requires before <= after && after - before <= t.admitted - t.works
    ensures Balanced(r)
  {
    assert Done(r) == Done(t);
    forall id | id in after ensures id in t.admitted && (id in t.works ==> id in before) {
      assert id in before || id in after - before;
    }
  }

  /** Steps that admit and finish nothing. */
  lemma SideKeeps(t: Trace, next: State)
    requires Sound(t) && Inv(next) && NotStranded(next)
    requires Held(t.state) <= Held(next) && Held(next) - Held(t.state) <= t.admitted - t.works
    ensures Sound(t.(state := next))
  {
    BalanceKept(t, t.(state := next), Held(t.state), Held(next));
  }

  lemma QuietKeeps(t: Trace, a: Action)
    requires Sound(t) && !a.Admit? && !a.Deliver?
    ensures Sound(Step(t, a)) && SpawnsLawful(t.state, Step(t, a).state)
  {
    match a
    case Resume(c) =>
      if IsCancel(c) && c.commandId in t.admitted - t.works && c.commandId !in Held(t.state) {
        RuntimeKeeps(t.state, c);
        SideKeeps(t, ScheduleRuntime(t.state, c));
      }
    case End(s, terminal) =>
      EndKeeps(t.state, s, terminal);
      SideKeeps(t, WorkerEnds(t.state, s, terminal));
    case Conclude(s) =>
      CleanupKeeps(t.state, s);
      SideKeeps(t, Cleanup(t.state, s));
    case Shutdown =>
      ShutdownKeeps(t.state);
      SideKeeps(t, t.state.(cancelled := t.state.cancelled + t.state.active.Keys));
  }

  lemma StepKeeps(t: Trace, a: Action)
    requires Sound(t)
    ensures Sound(Step(t, a)) && SpawnsLawful(t.state, Step(t, a).state)
  {
    match a
    case Admit(c) =>
      if c.commandId !in t.admitted {
        AdmitKeeps(t, c);
      }
    case Deliver =>
      if t.state.channel != [] {
        DeliverKeeps(t);
      }
    case _ => QuietKeeps(t, a);
  }

  lemma {:induction false} RunSound(actions: seq<Action>)
    ensures Sound(Run(actions))
  {
    if actions == [] {
      assert Held(IDLE) == {} && Done(START) == {};
    } else {
      RunSound(actions[..|actions| - 1]);
      StepKeeps(Run(actions[..|actions| - 1]), actions[|actions| - 1]);
    }
  }

  /** Over any history: a command admitted as work is in hand, in exactly one place, or its
      completion was handled, exactly once, and never both; at most four workers run; nothing
      waits unless something is active. */
  lemma WorkConserved(actions: seq<Action>, id: Name)
    requires id in Run(actions).works
    ensures var t := Run(actions);
      && (id in Held(t.state) <==> id !in t.finished)
      && (forall i, j | 0 <= i < |t.finished| && 0 <= j < |t.finished| ::
            t.finished[i] == id && t.finished[j] == id ==> i == j)
      && OnePlace(t.state)
      && |t.state.running| <= MAX_RUNTIME_CONCURRENCY
      && (t.state.queued != [] ==> t.state.active != map[])
  {
    RunSound(actions);
    var t := Run(actions);
    assert id in Done(t) <==> id in t.finished;
    assert id in Held(t.state) && id in Done(t) ==> id in Held(t.state) * Done(t) * t.works;
  }

  lemma NextLawful(actions: seq<Action>, a: Action)
    ensures SpawnsLawful(Run(actions).state, Run(actions + [a]).state)
  {
    RunSound(actions);
    StepKeeps(Run(actions), a);
    assert (actions + [a])[..|actions|] == actions;
  }

  /** What was started between two states, of one session, is cancellations only. */
  ghost predicate StartedOnlyCancels(before: seq<CommandEnvelope>, after: seq<CommandEnvelope>, s: Name) {
    before <= after && forall i | |before| <= i < |after| :: after[i].sessionId == s ==> IsCancel(after[i])
  }

  /** Once the control of a session is cancelled, no further work of that session is started as
      long as the flag stands. */
  lemma {:induction false} CancelledStartsNothing(actions: seq<Action>, more: seq<Action>, s: Name)
    requires forall n | 0 <= n <= |more| :: s in Run(actions + more[..n]).state.cancelled
    ensures StartedOnlyCancels(Run(actions).state.spawned, Run(actions + more).state.spawned, s)
  {
    if more == [] {
      assert actions + more == actions;
    } else {
      var n := |more| - 1;
      var shorter := more[..n];
      forall m | 0 <= m <= |shorter| ensures s in Run(actions + shorter[..m]).state.cancelled {
        assert shorter[..m] == more[..m];
      }
      CancelledStartsNothing(actions, shorter, s);
      NextLawful(actions + shorter, more[n]);
      assert actions + more == (actions + shorter) + [more[n]];
      assert s in Run(actions + more[..n]).state.cancelled;
    }
  }
}
