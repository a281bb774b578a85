/** Worker admission: four permits, a rotating queue, one active command per session, commands
    suppressed by cancellation, and the completions on their way back. */
module SchedulerState {
  import opened Protocol

  const MAX_RUNTIME_CONCURRENCY := 4

  /** `terminal` says whether the events of the completion end the session. */
  datatype Completion = Completion(sessionId: Name, commandId: Name, terminal: bool)

  /** `known` are the sessions with a control, `cancelled` and `ended` those whose control carries
      that flag; `running` are the active sessions whose worker still holds its permit; `spawned`
      lists the commands given to a worker. */
  datatype State = State(
    active: map<Name, Name>,
    known: set<Name>,
    cancelled: set<Name>,
    ended: set<Name>,
    pending: map<Name, CommandEnvelope>,
    suppressed: map<Name, Name>,
    queued: seq<CommandEnvelope>,
    free: nat,
    running: set<Name>,
    channel: seq<Completion>,
    spawned: seq<CommandEnvelope>)

  const IDLE := State(map[], {}, {}, {}, map[], map[], [], MAX_RUNTIME_CONCURRENCY, {}, [], [])

  datatype Followup = FinishCancellation(command: CommandEnvelope) | RescheduleCancellation(command: CommandEnvelope)

  predicate IsCancel(c: CommandEnvelope) { c.command.SessionCancel? }

  /** Work of a cancelled session is not started any more; cancellations themselves are. */
  predicate Barred(c: CommandEnvelope, cancelled: set<Name>) {
    c.sessionId in cancelled && !IsCancel(c)
  }

  /* ---- Single moves ---- */

  function Suppress(st: State, c: CommandEnvelope): State {
    st.(suppressed := st.suppressed[c.commandId := c.sessionId],
        ended := st.ended + {c.sessionId},
        channel := st.channel + [Completion(c.sessionId, c.commandId, c.sessionId !in st.ended)])
  }

  function Spawn(st: State, c: CommandEnvelope): State
    requires st.free > 0
  {
    st.(active := st.active[c.sessionId := c.commandId],
        running := st.running + {c.sessionId},
        free := st.free - 1,
        spawned := st.spawned + [c])
  }

  function Enqueue(st: State, c: CommandEnvelope): State {
    st.(queued := st.queued + [c])
  }

  function ScheduleInner(st: State, c: CommandEnvelope): State {
    if Barred(c, st.cancelled) then Suppress(st, c)
    else if c.sessionId in st.active || st.free == 0 then Enqueue(st, c)
    else Spawn(st, c)
  }

  /* ---- Draining ---- */

  /** One pass over the queue: what went to the back, what was not reached, what was spawned and
      what was suppressed. */
  datatype Pass = Pass(
    requeued: seq<CommandEnvelope>, rest: seq<CommandEnvelope>,
    spawned: seq<CommandEnvelope>, suppressed: seq<CommandEnvelope>)

  function Drain(q: seq<CommandEnvelope>, active: set<Name>, free: nat, cancelled: set<Name>): Pass {
    if q == [] then Pass([], [], [], [])
    else
      var c := q[0];
      if Barred(c, cancelled) then
        var p := Drain(q[1..], active, free, cancelled);
        p.(suppressed := [c] + p.suppressed)
      else if c.sessionId in active then
        var p := Drain(q[1..], active, free, cancelled);
        p.(requeued := [c] + p.requeued)
      else if free == 0 then Pass([], q, [], [])
      else
        var p := Drain(q[1..], active + {c.sessionId}, free - 1, cancelled);
        p.(spawned := [c] + p.spawned)
  }

  /** The queue a pass leaves: what was not reached, then what went to the back. */
  function QueueAfter(p: Pass): seq<CommandEnvelope> {
    p.rest + p.requeued
  }

  function Sessions(q: seq<CommandEnvelope>): set<Name> {
    set c | c in q :: c.sessionId
  }

  function Ids(q: seq<CommandEnvelope>): set<Name> {
    set c | c in q :: c.commandId
  }

  function Times(q: seq<CommandEnvelope>, x: CommandEnvelope): nat {
    multiset(q)[x]
  }

  lemma Prepend(c: CommandEnvelope, q: seq<CommandEnvelope>, x: CommandEnvelope)
    ensures Times([c] + q, x) == Times(q, x) + if c == x then 1 else 0
  {
    assert multiset([c] + q) == multiset{c} + multiset(q);
  }

  /** Draining loses and invents nothing: each command is as often in the parts as it was queued. */
  lemma {:induction false} DrainConserves(
    q: seq<CommandEnvelope>, active: set<Name>, free: nat, cancelled: set<Name>, x: CommandEnvelope)
    ensures var p := Drain(q, active, free, cancelled);
      Times(p.requeued, x) + Times(p.rest, x) + Times(p.spawned, x) + Times(p.suppressed, x) == Times(q, x)
  {
    if q != [] {
      var c := q[0];
      assert q == [c] + q[1..];
      Prepend(c, q[1..], x);
      if Barred(c, cancelled) {
        DrainConserves(q[1..], active, free, cancelled, x);
        Prepend(c, Drain(q[1..], active, free, cancelled).suppressed, x);
      } else if c.sessionId in active {
        DrainConserves(q[1..], active, free, cancelled, x);
        Prepend(c, Drain(q[1..], active, free, cancelled).requeued, x);
      } else if free > 0 {
        DrainConserves(q[1..], active + {c.sessionId}, free - 1, cancelled, x);
        Prepend(c, Drain(q[1..], active + {c.sessionId}, free - 1, cancelled).spawned, x);
      }
    }
  }

  ghost predicate DistinctSessions(q: seq<CommandEnvelope>) {
    forall i, j | 0 <= i < j < |q| :: q[i].sessionId != q[j].sessionId
  }

  /** What a pass may do: it spawns at most one command per free permit and per inactive session,
      none that is barred; it suppresses only barred ones; and it stops early only when the permits
      are used up. */
  ghost predicate Lawful(p: Pass, active: set<Name>, free: nat, cancelled: set<Name>) {
    && |p.spawned| <= free && DistinctSessions(p.spawned)
    && (forall c | c in p.spawned :: c.sessionId !in active && !Barred(c, cancelled))
    && (forall c | c in p.suppressed :: Barred(c, cancelled))
    && (forall c | c in p.requeued :: c.sessionId in active + Sessions(p.spawned))
    && (p.rest != [] ==> |p.spawned| == free)
  }

  lemma {:induction false} DrainLawful(q: seq<CommandEnvelope>, active: set<Name>, free: nat, cancelled: set<Name>)
    ensures Lawful(Drain(q, active, free, cancelled), active, free, cancelled)
  {
    if q != [] {
      var c := q[0];
      if Barred(c, cancelled) || c.sessionId in active {
        DrainLawful(q[1..], active, free, cancelled);
      } else if free > 0 {
        DrainLawful(q[1..], active + {c.sessionId}, free - 1, cancelled);
        SpawnLawful(Drain(q[1..], active + {c.sessionId}, free - 1, cancelled), c, active, free, cancelled);
      }
    }
  }

  lemma SpawnLawful(p: Pass, c: CommandEnvelope, active: set<Name>, free: nat, cancelled: set<Name>)
    requires free > 0 && c.sessionId !in active && !Barred(c, cancelled)
    requires Lawful(p, active + {c.sessionId}, free - 1, cancelled)
    ensures Lawful(p.(spawned := [c] + p.spawned), active, free, cancelled)
  {
    var s := [c] + p.spawned;
    assert Sessions(s) == {c.sessionId} + Sessions(p.spawned);
    forall j | 1 <= j < |s| ensures s[j].sessionId != c.sessionId {
      assert s[j] in p.spawned;
    }
  }

  /** After a pass either no permit is free or every command still queued waits for its own session. */
  lemma WorkConserving(q: seq<CommandEnvelope>, active: set<Name>, free: nat, cancelled: set<Name>)
    ensures var p := Drain(q, active, free, cancelled);
      |p.spawned| == free || Sessions(QueueAfter(p)) <= active + Sessions(p.spawned)
  {
    DrainLawful(q, active, free, cancelled);
  }

  /* ---- Order within a session ---- */

  function OfSession(q: seq<CommandEnvelope>, s: Name): seq<CommandEnvelope> {
    if q == [] then []
    else (if q[0].sessionId == s then [q[0]] else []) + OfSession(q[1..], s)
  }

  lemma {:induction false} OfSessionConcat(a: seq<CommandEnvelope>, b: seq<CommandEnvelope>, s: Name)
    ensures OfSession(a + b, s) == OfSession(a, s) + OfSession(b, s)
  {
    if a == [] {
      assert a + b == b;
    } else {
      var t := a[1..];
      assert (a + b)[1..] == t + b && (a + b)[0] == a[0];
      OfSessionConcat(t, b, s);
    }
  }

  lemma {:induction false} OfSessionContents(a: seq<CommandEnvelope>, s: Name)
    ensures forall c :: c in OfSession(a, s) <==> c in a && c.sessionId == s
  {
    if a != [] {
      OfSessionContents(a[1..], s);
      assert a == [a[0]] + a[1..];
    }
  }
}
