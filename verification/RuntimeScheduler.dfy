/** The scheduler object: shared control objects, the maps and the queue it mutates, and the loops
    over the queue. Every method is an operation of SchedulerRuns on what the object stands for. */
module RuntimeScheduler {
  import opened Protocol
  import opened SchedulerState
  import Runs = SchedulerRuns

  /** The control a session's commands share: one object, seen by the scheduler and the worker. */
  class Control {
    const session: Name
    var cancelled: bool
    var terminal: bool

    constructor (s: Name)
      ensures session == s && !cancelled && !terminal
    {
      session, cancelled, terminal := s, false, false;
    }
  }

  datatype ActiveRuntime = ActiveRuntime(commandId: Name, control: Control)

  datatype QueuedRuntime = QueuedRuntime(command: CommandEnvelope, control: Control)

  function Commands(q: seq<QueuedRuntime>): seq<CommandEnvelope> {
    seq(|q|, i requires 0 <= i < |q| => q[i].command)
  }

  function Appended(q: seq<QueuedRuntime>, item: QueuedRuntime): (r: seq<QueuedRuntime>)
    ensures r == q + [item] && Commands(r) == Commands(q) + [item.command]
  {
    q + [item]
  }

  /** Split a queue by session, both parts in their order. */
  method Partition(q: seq<QueuedRuntime>, s: Name) returns (removed: seq<QueuedRuntime>, retained: seq<QueuedRuntime>)
    ensures Commands(removed) == OfSession(Commands(q), s) && Commands(retained) == Runs.Removed(Commands(q), s)
    ensures forall x | x in removed :: x in q && x.command.sessionId == s
    ensures forall x | x in retained :: x in q
  {
    removed, retained := [], [];
    ghost var all := Commands(q);
    var i := 0;
    while i < |q|
      invariant i <= |q|
      invariant Commands(retained) + Runs.Removed(all[i..], s) == Runs.Removed(all, s)
      invariant Commands(removed) + OfSession(all[i..], s) == OfSession(all, s)
      invariant forall x | x in removed :: x in q && x.command.sessionId == s
      invariant forall x | x in retained :: x in q
    {
      PartitionStep(all, i, s);
      if q[i].command.sessionId == s {
        removed := Appended(removed, q[i]);
      } else {
        retained := Appended(retained, q[i]);
      }
      i := i + 1;
    }
    assert all[i..] == [];
  }

  lemma PartitionStep(all: seq<CommandEnvelope>, i: nat, s: Name)
    requires i < |all|
    ensures OfSession(all[i..], s) == (if all[i].sessionId == s then [all[i]] else []) + OfSession(all[i + 1..], s)
    ensures Runs.Removed(all[i..], s)
         == (if all[i].sessionId == s then [] else [all[i]]) + Runs.Removed(all[i + 1..], s)
  {
    assert all[i..][0] == all[i] && all[i..][1..] == all[i + 1..];
  }

  /* ---- The drain as the source steps through it ---- */

  /** Handle the next `n` queued commands one at a time. */
  function DrainLoop(st: State, n: nat): State
    requires n <= |st.queued|
    decreases n
  {
    if n == 0 then st
    else
      var c := st.queued[0];
      var popped := st.(queued := st.queued[1..]);
      if Barred(c, st.cancelled) then DrainLoop(Suppress(popped, c), n - 1)
      else if c.sessionId in st.active then DrainLoop(popped.(queued := popped.queued + [c]), n - 1)
      else if st.free == 0 then st
      else DrainLoop(Spawn(popped, c), n - 1)
  }

  lemma {:induction false} SuppressCommutes(st: State, c: CommandEnvelope, cs: seq<CommandEnvelope>)
    requires |cs| <= st.free
    ensures Runs.SpawnAll(Suppress(st, c), cs) == Suppress(Runs.SpawnAll(st, cs), c)
    decreases |cs|
  {
    if cs != [] {
      assert Spawn(Suppress(st, c), cs[0]) == Suppress(Spawn(st, cs[0]), c);
      SuppressCommutes(Spawn(st, cs[0]), c, cs[1..]);
    }
  }

  /** What a pass makes of a state whose queue is the part still to be seen and what went to the
      back before. */
  function Outcome(st: State, p: Pass, back: seq<CommandEnvelope>): State
    requires |p.spawned| <= st.free
  {
    Runs.SuppressAll(Runs.SpawnAll(st.(queued := p.rest + back + p.requeued), p.spawned), p.suppressed)
  }

  lemma SuppressedFirst(st: State, popped: State, c: CommandEnvelope, r: Pass, back: seq<CommandEnvelope>)
    requires popped == st.(queued := popped.queued) && |r.spawned| <= st.free
    ensures Outcome(Suppress(popped, c), r, back) == Outcome(st, r.(suppressed := [c] + r.suppressed), back)
  {
    var x := st.(queued := r.rest + back + r.requeued);
    assert Suppress(popped, c).(queued := r.rest + back + r.requeued) == Suppress(x, c);
    SuppressCommutes(x, c, r.spawned);
    assert ([c] + r.suppressed)[0] == c && ([c] + r.suppressed)[1..] == r.suppressed;
  }

  lemma RequeuedFirst(st: State, popped: State, c: CommandEnvelope, r: Pass, back: seq<CommandEnvelope>)
    requires popped == st.(queued := popped.queued) && |r.spawned| <= st.free
    ensures Outcome(popped, r, back + [c]) == Outcome(st, r.(requeued := [c] + r.requeued), back)
  {
    assert r.rest + (back + [c]) + r.requeued == r.rest + back + ([c] + r.requeued);
  }

  lemma SpawnedFirst(st: State, popped: State, c: CommandEnvelope, r: Pass, back: seq<CommandEnvelope>)
    requires popped == st.(queued := popped.queued) && |r.spawned| < st.free
    ensures Outcome(Spawn(popped, c), r, back) == Outcome(st, r.(spawned := [c] + r.spawned), back)
  {
    var x := st.(queued := r.rest + back + r.requeued);
    assert Spawn(popped, c).(queued := r.rest + back + r.requeued) == Spawn(x, c);
    assert ([c] + r.spawned)[0] == c && ([c] + r.spawned)[1..] == r.spawned;
  }

  lemma NothingDone(st: State, q: seq<CommandEnvelope>, back: seq<CommandEnvelope>)
    requires st.queued == q + back
    ensures Outcome(st, Pass([], q, [], []), back) == st
  {
    assert q + back + [] == st.queued;
    assert st.(queued := st.queued) == st;
  }

  lemma {:induction false} LoopIsPass(st: State, q: seq<CommandEnvelope>, back: seq<CommandEnvelope>)
    requires st.queued == q + back
    ensures |Drain(q, st.active.Keys, st.free, st.cancelled).spawned| <= st.free
    ensures DrainLoop(st, |q|) == Outcome(st, Drain(q, st.active.Keys, st.free, st.cancelled), back)
    decreases |q|
  {
    DrainLawful(q, st.active.Keys, st.free, st.cancelled);
    if q == [] {
      NothingDone(st, q, back);
    } else {
      var c := q[0];
      var popped := st.(queued := st.queued[1..]);
      assert popped.queued == q[1..] + back && st.queued[0] == c;
      if Barred(c, st.cancelled) {
        LoopIsPass(Suppress(popped, c), q[1..], back);
        SuppressedFirst(st, popped, c, Drain(q[1..], st.active.Keys, st.free, st.cancelled), back);
      } else if c.sessionId in st.active {
        var turned := popped.(queued := popped.queued + [c]);
        assert turned.queued == q[1..] + (back + [c]);
        LoopIsPass(turned, q[1..], back + [c]);
        RequeuedFirst(st, turned, c, Drain(q[1..], st.active.Keys, st.free, st.cancelled), back);
      } else if st.free == 0 {
        NothingDone(st, q, back);
      } else {
        LoopSpawns(st, popped, q, back);
      }
    }
  }

  lemma {:induction false} LoopSpawns(st: State, popped: State, q: seq<CommandEnvelope>, back: seq<CommandEnvelope>)
    requires q != [] && st.free > 0 && st.queued == q + back
    requires popped == st.(queued := q[1..] + back)
    requires !Barred(q[0], st.cancelled) && q[0].sessionId !in st.active
    ensures |Drain(q, st.active.Keys, st.free, st.cancelled).spawned| <= st.free
    ensures DrainLoop(Spawn(popped, q[0]), |q| - 1)
         == Outcome(st, Drain(q, st.active.Keys, st.free, st.cancelled), back)
    decreases |q|, 0
  {
    var c := q[0];
    var r := Drain(q[1..], st.active.Keys + {c.sessionId}, st.free - 1, st.cancelled);
    assert Spawn(popped, c).active.Keys == st.active.Keys + {c.sessionId};
    LoopIsPass(Spawn(popped, c), q[1..], back);
    SpawnedFirst(st, popped, c, r, back);
  }

  /** Stepping through the whole queue once is the pass of SchedulerRuns. */
  lemma LoopIsDrain(st: State)
    ensures DrainLoop(st, |st.queued|) == Runs.DrainQueue(st)
  {
    assert st.queued + [] == st.queued;
    LoopIsPass(st, st.queued, []);
    PassOutcome(st, Runs.PassOf(st));
  }

  lemma PassOutcome(st: State, p: Pass)
    requires p == Runs.PassOf(st)
    ensures Outcome(st, p, []) == Runs.DrainQueue(st)
  {
    assert p.rest + [] + p.requeued == QueueAfter(p);
  }

  class Scheduler {
    var active: map<Name, ActiveRuntime>
    var controls: map<Name, Control>
    var pending: map<Name, CommandEnvelope>
    var suppressed: map<Name, Control>
    var queued: seq<QueuedRuntime>
    var permits: nat
    var channel: seq<Completion>
    ghost var running: set<Name>
    ghost var spawned: seq<CommandEnvelope>

    /** Everything in hand refers to its session's one control object. */
    ghost predicate Shared()
      reads this
    {
      && (forall s | s in controls :: controls[s].session == s)
      && (forall i | 0 <= i < |queued| :: Owns(queued[i].command.sessionId, queued[i].control))
      && (forall s | s in active :: Owns(s, active[s].control))
      && (forall id | id in suppressed :: Owns(suppressed[id].session, suppressed[id]))
    }

    ghost predicate Owns(s: Name, control: Control)
      reads this
    {
      s in controls && controls[s] == control
    }

    /** The state the object stands for. */
    ghost function Abs(): State
      reads this, controls.Values
    {
      State(
        (map s | s in active :: active[s].commandId),
        controls.Keys,
        (set s | s in controls && controls[s].cancelled),
        (set s | s in controls && controls[s].terminal),
        pending,
        (map id | id in suppressed :: suppressed[id].session),
        Commands(queued),
        permits, running, channel, spawned)
    }

    ghost predicate Valid()
      reads this, controls.Values
    {
      Shared() && Runs.Inv(Abs()) && Runs.NotStranded(Abs())
    }

    constructor ()
      ensures Valid() && Abs() == IDLE
    {
      active, controls, pending, suppressed := map[], map[], map[], map[];
      queued, permits, channel, running, spawned := [], MAX_RUNTIME_CONCURRENCY, [], {}, [];
    }

    /** The control of a command's session, made on first use. */
    method ControlFor(c: CommandEnvelope) returns (control: Control)
      requires Shared()
      modifies this`controls
      ensures Shared() && Owns(c.sessionId, control)
      ensures Abs() == old(Abs()).(known := old(Abs()).known + {c.sessionId})
      ensures forall x | x in controls.Values :: x in old(controls.Values) || fresh(x)
    {
      if c.sessionId !in controls {
        var made := new Control(c.sessionId);
        controls := controls[c.sessionId := made];
      }
      control := controls[c.sessionId];
    }

    method SuppressCommand(c: CommandEnvelope, control: Control)
      requires Shared() && Owns(c.sessionId, control)
      modifies this`suppressed, this`channel, control`terminal
      ensures Shared() && Abs() == Suppress(old(Abs()), c)
    {
      suppressed := suppressed[c.commandId := control];
      channel := channel + [Completion(c.sessionId, c.commandId, !control.terminal)];
      control.terminal := true;
    }

    method SpawnRuntime(c: CommandEnvelope, control: Control)
      requires Shared() && Owns(c.sessionId, control) && permits > 0
      modifies this`active, this`permits, this`running, this`spawned
      ensures Shared() && Abs() == Spawn(old(Abs()), c)
    {
      active := active[c.sessionId := ActiveRuntime(c.commandId, control)];
      permits := permits - 1;
      running, spawned := running + {c.sessionId}, spawned + [c];
    }

    method EnqueueRuntime(c: CommandEnvelope, control: Control)
      requires Shared() && Owns(c.sessionId, control)
      modifies this`queued
      ensures Shared() && Abs() == Enqueue(old(Abs()), c)
    {
      queued := queued + [QueuedRuntime(c, control)];
    }

    method ScheduleInner(c: CommandEnvelope, control: Control)
      requires Shared() && Owns(c.sessionId, control)
      modifies this`active, this`suppressed, this`queued, this`permits, this`channel, this`running, this`spawned
      modifies control`terminal
      ensures Shared() && Abs() == SchedulerState.ScheduleInner(old(Abs()), c)
    {
      if control.cancelled && !IsCancel(c) {
        SuppressCommand(c, control);
      } else if c.sessionId in active || permits == 0 {
        EnqueueRuntime(c, control);
      } else {
        SpawnRuntime(c, control);
      }
    }

    /** Give every waiting command one chance: suppress it, send it to the back, or start it; stop
        when the permits are used up. */
    method DrainQueue()
      requires Shared()
      modifies this, controls.Values
      ensures Shared() && controls == old(controls) && Abs() == Runs.DrainQueue(old(Abs()))
    {
      LoopIsDrain(Abs());
      assert |queued| == |Abs().queued|;
      var remaining: nat := |queued|;
      while remaining > 0
        invariant remaining <= |Abs().queued| && Shared() && controls == old(controls)
        invariant DrainLoop(Abs(), remaining) == Runs.DrainQueue(old(Abs()))
      {
        var stop := AtStop();
        if stop {
          return;
        }
        DrainOne(remaining);
        remaining := remaining - 1;
      }
    }

    /** The front command needs a permit and there is none. */
    method AtStop() returns (stop: bool)
      requires Shared() && Abs().queued != []
      ensures queued != []
      ensures var c := Abs().queued[0];
        stop <==> permits == 0 && !Barred(c, Abs().cancelled) && c.sessionId !in Abs().active
      ensures stop ==> forall n | 0 <= n <= |Abs().queued| :: DrainLoop(Abs(), n) == Abs()
    {
      assert |queued| == |Abs().queued|;
      var item := queued[0];
      stop := permits == 0 && !(item.control.cancelled && !IsCancel(item.command)) && item.command.sessionId !in active;
    }

    /** One turn of the drain: the front command leaves its place. */
    method DrainOne(n: nat)
      requires Shared() && 0 < n <= |Abs().queued|
      requires var c := Abs().queued[0];
        permits > 0 || Barred(c, Abs().cancelled) || c.sessionId in Abs().active
      modifies this, controls.Values
      ensures Shared() && controls == old(controls)
      ensures n - 1 <= |Abs().queued| && DrainLoop(old(Abs()), n) == DrainLoop(Abs(), n - 1)
    {
      ghost var st := Abs();
      assert |queued| == |st.queued|;
      var item := queued[0];
      queued := queued[1..];
      assert Abs() == st.(queued := st.queued[1..]);
      if item.control.cancelled && !IsCancel(item.command) {
        SuppressCommand(item.command, item.control);
      } else if item.command.sessionId in active {
        EnqueueRuntime(item.command, item.control);
      } else {
        SpawnRuntime(item.command, item.control);
      }
    }

    method RemoveQueued(s: Name) returns (removed: seq<QueuedRuntime>)
      requires Shared()
      modifies this`queued
      ensures Shared() && Abs() == old(Abs()).(queued := Runs.Removed(old(Abs()).queued, s))
      ensures Commands(removed) == OfSession(old(Abs()).queued, s)
      ensures forall i | 0 <= i < |removed| :: removed[i].command.sessionId == s && Owns(s, removed[i].control)
    {
      ghost var before := queued;
      var taken, retained := Partition(queued, s);
      removed, queued := taken, retained;
      assert forall i | 0 <= i < |queued| :: queued[i] in before;
      assert forall i | 0 <= i < |removed| :: removed[i] in before;
    }

    method SuppressAll(items: seq<QueuedRuntime>, s: Name)
      requires Shared()
      requires forall i | 0 <= i < |items| :: items[i].command.sessionId == s && Owns(s, items[i].control)
      modifies this`suppressed, this`channel, controls.Values
      ensures Shared() && Abs() == Runs.SuppressAll(old(Abs()), Commands(items))
    {
      var i := 0;
      assert Commands(items)[0..] == Commands(items);
      while i < |items|
        invariant i <= |items| && Shared() && controls == old(controls)
        invariant Runs.SuppressAll(Abs(), Commands(items)[i..]) == Runs.SuppressAll(old(Abs()), Commands(items))
      {
        assert Commands(items)[i..][0] == items[i].command && Commands(items)[i..][1..] == Commands(items)[i + 1..];
        SuppressCommand(items[i].command, items[i].control);
        i := i + 1;
      }
    }

    method ScheduleCancellation(c: CommandEnvelope, control: Control)
      requires Shared() && Owns(c.sessionId, control) && IsCancel(c)
      modifies this, controls.Values
      ensures Shared() && Abs() == Runs.ScheduleCancellation(old(Abs()), c)
    {
      var s := c.sessionId;
      FlagCancelled(control, s);
      var waiting := RemoveQueued(s);
      assert waiting == [] <==> Commands(waiting) == [];
      assert Abs() == Runs.Flagged(old(Abs()), c);
      if s in active || waiting != [] {
        KeepPending(c);
        SuppressAll(waiting, s);
      } else if s !in pending {
        ScheduleInner(c, control);
      }
    }

    method KeepPending(c: CommandEnvelope)
      requires Shared()
      modifies this`pending
      ensures Shared()
      ensures Abs() == if c.sessionId in old(Abs()).pending then old(Abs())
                       else old(Abs()).(pending := old(Abs()).pending[c.sessionId := c])
    {
      if c.sessionId !in pending {
        pending := pending[c.sessionId := c];
      }
    }

    method FlagCancelled(control: Control, s: Name)
      requires Shared() && Owns(s, control)
      modifies control`cancelled
      ensures Shared() && Abs() == old(Abs()).(cancelled := old(Abs()).cancelled + {s})
    {
      control.cancelled := true;
    }

    /** Admit one durable command. */
    method Schedule(c: CommandEnvelope)
      requires Valid() && c.commandId !in Runs.Held(Abs())
      modifies this, controls.Values
      ensures Valid() && Abs() == Runs.Schedule(old(Abs()), c)
    {
      Runs.ScheduleKeeps(Abs(), c);
      ScheduleShared(c);
    }

    method ScheduleShared(c: CommandEnvelope)
      requires Shared()
      modifies this, controls.Values
      ensures Shared() && Abs() == Runs.Schedule(old(Abs()), c)
    {
      var control := ControlFor(c);
      if IsCancel(c) {
        ScheduleCancellation(c, control);
      } else if control.cancelled {
        SuppressCommand(c, control);
      } else {
        ScheduleInner(c, control);
      }
    }

    /** Admit a cancellation again, as a command of its own. */
    method ScheduleRuntime(c: CommandEnvelope)
      requires Valid() && c.commandId !in Runs.Held(Abs())
      modifies this, controls.Values
      ensures Valid() && Abs() == Runs.ScheduleRuntime(old(Abs()), c)
    {
      Runs.RuntimeKeeps(Abs(), c);
      var control := ControlFor(c);
      ScheduleInner(c, control);
    }

    /** A worker returns its permit and sends its completion. */
    method WorkerEnded(s: Name, terminal: bool)
      requires Valid() && s in running
      modifies this
      ensures Valid() && Abs() == Runs.WorkerEnds(old(Abs()), s, terminal)
    {
      Runs.EndKeeps(Abs(), s, terminal);
      assert s in Abs().active && s in active;
      ReturnPermit(s, terminal);
    }

    method ReturnPermit(s: Name, terminal: bool)
      requires Shared() && s in running && s in active
      modifies this`running, this`permits, this`channel
      ensures Shared() && Abs() == Runs.WorkerEnds(old(Abs()), s, terminal)
    {
      running, permits := running - {s}, permits + 1;
      channel := channel + [Completion(s, active[s].commandId, terminal)];
    }

    /** Drop the control of a finished session nothing refers to any more. */
    method CleanupControl(s: Name)
      requires Shared()
      modifies this`controls
      ensures Shared() && Abs() == Runs.Cleanup(old(Abs()), s)
    {
      var waits := WaitsOrSuppressed(s);
      if s in controls && controls[s].terminal && s !in active && !waits && s !in pending {
        controls := controls - {s};
      }
    }

    method WaitsOrSuppressed(s: Name) returns (found: bool)
      requires Shared()
      ensures found <==> s in Sessions(Abs().queued) || Runs.HasSuppressed(Abs(), s)
      ensures !found ==> (forall i | 0 <= i < |queued| :: queued[i].command.sessionId != s)
      ensures !found ==> (forall id | id in suppressed :: suppressed[id].session != s)
    {
      ghost var st := Abs();
      var waits := exists i | 0 <= i < |queued| :: queued[i].command.sessionId == s;
      var holds := exists id | id in suppressed :: suppressed[id].session == s;
      found := waits || holds;
      if waits {
        ghost var i :| 0 <= i < |queued| && queued[i].command.sessionId == s;
        assert st.queued[i] in st.queued;
      }
      if holds {
        ghost var id :| id in suppressed && suppressed[id].session == s;
        assert id in st.suppressed && st.suppressed[id] == s;
      }
      forall c | c in st.queued && c.sessionId == s ensures waits {
        var i :| 0 <= i < |st.queued| && st.queued[i] == c;
        assert queued[i].command == c;
      }
      forall id | id in st.suppressed && st.suppressed[id] == s ensures holds {
        assert suppressed[id].session == s;
      }
    }

    /** Handle a completion. One the scheduler does not expect changes nothing. */
    method FinishActive(k: Completion) returns (r: Option<Option<Followup>>)
      requires Shared()
      requires k.commandId in suppressed ==> suppressed[k.commandId].session == k.sessionId
      modifies this, controls.Values
      ensures Shared()
      ensures match Runs.FinishActive(old(Abs()), k)
              case None => r == None && Abs() == old(Abs())
              case Some(done) => r == Some(done.followup) && Abs() == done.state
    {
      if !(k.commandId in suppressed || (k.sessionId in active && active[k.sessionId].commandId == k.commandId)) {
        return None;
      }
      var control := RetireActive(k);
      var ended := NoteTerminal(k, control);
      var followup := TakePending(k.sessionId, ended);
      DrainQueue();
      if followup.None? && ended {
        CleanupControl(k.sessionId);
      }
      return Some(followup);
    }

    method RetireActive(k: Completion) returns (control: Control)
      requires Shared() && Runs.Expects(Abs(), k)
      requires k.commandId in suppressed ==> suppressed[k.commandId].session == k.sessionId
      modifies this`active, this`suppressed
      ensures Shared() && Abs() == Runs.Retire(old(Abs()), k) && Owns(k.sessionId, control)
    {
      if k.commandId in suppressed {
        control := suppressed[k.commandId];
        suppressed := suppressed - {k.commandId};
      } else {
        control := active[k.sessionId].control;
        active := active - {k.sessionId};
      }
    }

    method NoteTerminal(k: Completion, control: Control) returns (ended: bool)
      requires Shared() && Owns(k.sessionId, control)
      modifies control`terminal
      ensures Shared()
      ensures Abs() == if k.terminal then old(Abs()).(ended := old(Abs()).ended + {k.sessionId}) else old(Abs())
      ensures ended <==> k.sessionId in Abs().ended
    {
      if k.terminal {
        control.terminal := true;
      }
      ended := control.terminal;
    }

    method TakePending(s: Name, ended: bool) returns (followup: Option<Followup>)
      requires Shared()
      modifies this`pending
      ensures Shared() && Abs() == old(Abs()).(pending := old(Abs()).pending - {s})
      ensures followup ==
        if s !in old(Abs()).pending then None
        else if ended then Some(FinishCancellation(old(Abs()).pending[s]))
        else Some(RescheduleCancellation(old(Abs()).pending[s]))
    {
      if s !in pending {
        assert pending - {s} == pending;
        return None;
      }
      followup := Some(if ended then FinishCancellation(pending[s]) else RescheduleCancellation(pending[s]));
      pending := pending - {s};
    }

    method PopChannel() returns (k: Completion)
      requires Shared() && Runs.ChannelExact(Abs()) && channel != []
      modifies this`channel
      ensures Shared() && k == old(Abs()).channel[0] && Abs() == old(Abs()).(channel := old(Abs()).channel[1..])
      ensures k.commandId in suppressed ==> suppressed[k.commandId].session == k.sessionId
    {
      k := channel[0];
      assert k in Abs().channel;
      channel := channel[1..];
    }

    /** Take the next completion and handle it: it is always one the scheduler expects. */
    method Receive() returns (k: Completion, followup: Option<Followup>)
      requires Valid() && channel != []
      modifies this, controls.Values
      ensures Valid() && k == old(channel)[0]
      ensures Runs.Receive(old(Abs())) == Some(Runs.Finished(Abs(), followup))
    {
      Runs.ReceiveKeeps(Abs());
      k := PopChannel();
      var r := FinishActive(k);
      followup := r.value;
    }

    /** Signal every active session at shutdown. */
    method RequestShutdown()
      requires Valid()
      modifies controls.Values
      ensures Valid() && Abs() == old(Abs()).(cancelled := old(Abs()).cancelled + old(Abs()).active.Keys)
    {
      ghost var st := Abs();
      FlagActive();
      Runs.ShutdownKeeps(st);
    }

    method FlagActive()
      requires Shared()
      modifies controls.Values
      ensures Shared() && Abs() == old(Abs()).(cancelled := old(Abs()).cancelled + old(Abs()).active.Keys)
    {
      ghost var st := Abs();
      var todo := active.Keys;
      while todo != {}
        invariant Shared() && todo <= active.Keys
        invariant Abs() == st.(cancelled := st.cancelled + (active.Keys - todo))
        decreases todo
      {
        var s :| s in todo;
        FlagCancelled(active[s].control, s);
        todo := todo - {s};
      }
      assert st.active.Keys == active.Keys - {};
    }
  }
}
