/** What the scheduler's operations do to the queue of one session, and where each command in hand
    comes from. */
module SchedulerQueue {
  import opened Protocol
  import opened SchedulerState
  import opened SchedulerRuns

  function Count(st: State, s: Name): nat {
    |OfSession(st.queued, s)|
  }

  /** At most one command waits for an active session and two for another; none while a cancellation
      is kept; and what waits for a cancelled session is cancellations, for another it is work. */
  ghost predicate Tidy(st: State) {
    && (forall s :: Count(st, s) <= if s in st.active then 1 else 2)
    && (forall s | s in st.pending :: s in st.cancelled && Count(st, s) == 0)
    && (forall c | c in st.queued :: IsCancel(c) <==> c.sessionId in st.cancelled)
    && (forall id | id in st.suppressed :: st.suppressed[id] in st.ended)
  }

  lemma NoneQueued(q: seq<CommandEnvelope>, s: Name)
    ensures OfSession(q, s) == [] <==> s !in Sessions(q)
  {
    OfSessionContents(q, s);
    assert OfSession(q, s) != [] ==> OfSession(q, s)[0] in OfSession(q, s);
  }

  lemma CountMore(q: seq<CommandEnvelope>, c: CommandEnvelope, s: Name)
    ensures |OfSession(q + [c], s)| == |OfSession(q, s)| + if c.sessionId == s then 1 else 0
  {
    OfSessionConcat(q, [c], s);
    assert [c][1..] == [];
  }

  /* ---- Single moves ---- */

  lemma SuppressTidy(st: State, c: CommandEnvelope)
    requires Tidy(st)
    ensures Tidy(Suppress(st, c))
  {
    assert forall s :: Count(Suppress(st, c), s) == Count(st, s);
  }

  lemma {:induction false} SuppressAllTidy(st: State, cs: seq<CommandEnvelope>)
    requires Tidy(st)
    ensures var r := SuppressAll(st, cs);
      && Tidy(r) && r.queued == st.queued && r.active == st.active && r.free == st.free
      && r.cancelled == st.cancelled && r.pending == st.pending
    decreases |cs|
  {
    if cs != [] {
      SuppressTidy(st, cs[0]);
      SuppressAllTidy(Suppress(st, cs[0]), cs[1..]);
    }
  }

  /** A command that may run is queued or started without crowding its session. */
  lemma InnerTidy(st: State, c: CommandEnvelope)
    requires Tidy(st) && (IsCancel(c) <==> c.sessionId in st.cancelled) && c.sessionId !in st.pending
    requires Count(st, c.sessionId) <= if c.sessionId in st.active then 0 else 1
    ensures Tidy(ScheduleInner(st, c))
    ensures c.sessionId in ScheduleInner(st, c).active ==> Count(ScheduleInner(st, c), c.sessionId) <= 1
  {
    var r := ScheduleInner(st, c);
    forall s
      ensures Count(r, s) <= (if s in r.active then 1 else 2) && (s != c.sessionId ==> Count(r, s) == Count(st, s))
    {
      CountMore(st.queued, c, s);
    }
    forall x | x in r.queued ensures IsCancel(x) <==> x.sessionId in r.cancelled {
      assert x in st.queued || x == c;
    }
  }

  /* ---- Cancellation ---- */

  lemma {:induction false} RemovedOthers(q: seq<CommandEnvelope>, s: Name, t: Name)
    ensures OfSession(Removed(q, s), t) == if t == s then [] else OfSession(q, t)
  {
    if q != [] {
      RemovedOthers(q[1..], s, t);
      if q[0].sessionId != s {
        OfSessionConcat([q[0]], Removed(q[1..], s), t);
        assert [q[0]][1..] == [];
      } else {
        assert Removed(q, s) == Removed(q[1..], s);
      }
    }
  }

  lemma {:induction false} RemovedFrom(q: seq<CommandEnvelope>, s: Name)
    ensures forall c | c in Removed(q, s) :: c in q && c.sessionId != s
  {
    if q != [] {
      RemovedFrom(q[1..], s);
    }
  }

  lemma FlaggedTidy(st: State, c: CommandEnvelope)
    requires Tidy(st)
    ensures Tidy(Flagged(st, c)) && Count(Flagged(st, c), c.sessionId) == 0
  {
    var r := Flagged(st, c);
    forall s ensures Count(r, s) == if s == c.sessionId then 0 else Count(st, s) {
      RemovedOthers(st.queued, c.sessionId, s);
    }
    RemovedFrom(st.queued, c.sessionId);
  }

  /** A cancellation leaves its session with nothing waiting, or with itself when it found nothing
      under way and no permit. */
  lemma CancellationTidy(st: State, c: CommandEnvelope)
    requires Tidy(st) && IsCancel(c)
    ensures var r := ScheduleCancellation(st, c);
      && Tidy(r) && c.sessionId in r.cancelled
      && (c.sessionId !in st.pending && c.sessionId !in st.active && Count(st, c.sessionId) == 0 ==>
            c.sessionId !in r.pending && Count(r, c.sessionId) <= (if c.sessionId in r.active then 0 else 1))
  {
    var s, flagged := c.sessionId, Flagged(st, c);
    var waiting := OfSession(st.queued, s);
    FlaggedTidy(st, c);
    if s in st.active || waiting != [] {
      InterruptingTidy(st, c);
      SuppressAllTidy(Interrupting(st, c), waiting);
      assert ScheduleCancellation(st, c) == SuppressAll(Interrupting(st, c), waiting);
    } else if s !in st.pending {
      InnerTidy(flagged, c);
      CountMore(flagged.queued, c, s);
      assert ScheduleCancellation(st, c) == ScheduleInner(flagged, c);
    }
  }

  lemma InterruptingTidy(st: State, c: CommandEnvelope)
    requires Tidy(st) && IsCancel(c)
    ensures Tidy(Interrupting(st, c))
  {
    FlaggedTidy(st, c);
    assert forall s :: Count(Interrupting(st, c), s) == Count(Flagged(st, c), s);
  }

  /* ---- Draining ---- */

  /** What a pass starts or suppresses of a session is missing from what it leaves. */
  lemma {:induction false} DrainCounts(q: seq<CommandEnvelope>, active: set<Name>, free: nat, cancelled: set<Name>,
                                       s: Name)
    ensures var p := Drain(q, active, free, cancelled);
      |OfSession(QueueAfter(p), s)| + |OfSession(p.spawned, s)| + |OfSession(p.suppressed, s)| == |OfSession(q, s)|
  {
    if q != [] {
      var c, p := q[0], Drain(q, active, free, cancelled);
      if Barred(c, cancelled) || c.sessionId in active {
        var r := Drain(q[1..], active, free, cancelled);
        DrainCounts(q[1..], active, free, cancelled, s);
        CountParts(c, p, r, s);
      } else if free > 0 {
        var r := Drain(q[1..], active + {c.sessionId}, free - 1, cancelled);
        DrainCounts(q[1..], active + {c.sessionId}, free - 1, cancelled, s);
        CountParts(c, p, r, s);
      } else {
        assert QueueAfter(p) == q;
      }
    }
  }

  lemma CountParts(c: CommandEnvelope, p: Pass, r: Pass, s: Name)
    requires
      || p == r.(suppressed := [c] + r.suppressed)
      || p == r.(requeued := [c] + r.requeued)
      || p == r.(spawned := [c] + r.spawned)
    ensures |OfSession(QueueAfter(p), s)| + |OfSession(p.spawned, s)| + |OfSession(p.suppressed, s)|
         == |OfSession(QueueAfter(r), s)| + |OfSession(r.spawned, s)| + |OfSession(r.suppressed, s)|
            + if c.sessionId == s then 1 else 0
  {
    OfSessionConcat(p.rest, p.requeued, s);
    OfSessionConcat(r.rest, r.requeued, s);
    OfSessionConcat([c], r.requeued, s);
    OfSessionConcat([c], r.suppressed, s);
    OfSessionConcat([c], r.spawned, s);
    assert [c][1..] == [];
  }

  /** A pass has only commands of the queue. */
  ghost predicate PartsFrom(q: seq<CommandEnvelope>, p: Pass) {
    && (forall c | c in QueueAfter(p) :: c in q) && (forall c | c in p.spawned :: c in q)
    && (forall c | c in p.suppressed :: c in q)
  }

  lemma HeadFrom(q: seq<CommandEnvelope>, t: seq<CommandEnvelope>, r: Pass, p: Pass)
    requires q != [] && PartsFrom(t, r) && forall c | c in t :: c in q
    requires
      || p == r.(suppressed := [q[0]] + r.suppressed)
      || p == r.(requeued := [q[0]] + r.requeued)
      || p == r.(spawned := [q[0]] + r.spawned)
    ensures PartsFrom(q, p)
  {
    forall c | c in QueueAfter(p) ensures c in q {
      assert c == q[0] || c in QueueAfter(r);
    }
  }

  lemma {:induction false} DrainFrom(q: seq<CommandEnvelope>, active: set<Name>, free: nat, cancelled: set<Name>)
    ensures PartsFrom(q, Drain(q, active, free, cancelled))
  {
    if q != [] {
      var c, t, p := q[0], q[1..], Drain(q, active, free, cancelled);
      if Barred(c, cancelled) || c.sessionId in active {
        DrainFrom(t, active, free, cancelled);
        HeadFrom(q, t, Drain(t, active, free, cancelled), p);
      } else if free > 0 {
        DrainFrom(t, active + {c.sessionId}, free - 1, cancelled);
        HeadFrom(q, t, Drain(t, active + {c.sessionId}, free - 1, cancelled), p);
      }
    }
  }

  lemma SpawnedCount(cs: seq<CommandEnvelope>, s: Name)
    ensures s in Sessions(cs) ==> |OfSession(cs, s)| >= 1
  {
    NoneQueued(cs, s);
  }

  lemma DrainTidy(st: State)
    requires Tidy(st)
    ensures var r := DrainQueue(st);
      && Tidy(r) && r.pending == st.pending && r.cancelled == st.cancelled
      && forall s | s !in st.active && Count(st, s) == 0 :: s !in r.active && Count(r, s) == 0
  {
    var p := PassOf(st);
    var q := st.(queued := QueueAfter(p));
    var mid, r := SpawnAll(q, p.spawned), DrainQueue(st);
    SpawnAllEffect(q, p.spawned);
    DrainFrom(st.queued, st.active.Keys, st.free, st.cancelled);
    assert mid.suppressed == st.suppressed && mid.ended == st.ended by {
      SpawnAllFlags(q, p.spawned);
    }
    forall s
      ensures Count(mid, s) <= if s in mid.active then 1 else 2
      ensures Count(mid, s) <= Count(st, s) && (s !in st.active && Count(st, s) == 0 ==> s !in mid.active)
    {
      DrainCounts(st.queued, st.active.Keys, st.free, st.cancelled, s);
      SpawnedCount(p.spawned, s);
    }
    SuppressAllTidy(mid, p.suppressed);
  }

  lemma {:induction false} SpawnAllFlags(st: State, cs: seq<CommandEnvelope>)
    requires |cs| <= st.free
    ensures SpawnAll(st, cs).suppressed == st.suppressed && SpawnAll(st, cs).ended == st.ended
    decreases |cs|
  {
    if cs != [] {
      SpawnAllFlags(Spawn(st, cs[0]), cs[1..]);
    }
  }

  /* ---- Completions ---- */

  lemma CleanupTidy(st: State, s: Name)
    requires Tidy(st)
    ensures Tidy(Cleanup(st, s))
  {
    var r := Cleanup(st, s);
    assert forall t :: Count(r, t) == Count(st, t);
    forall c | c in st.queued ensures c.sessionId in Sessions(st.queued) {
    }
    forall id | id in st.suppressed ensures HasSuppressed(st, st.suppressed[id]) {
    }
  }

  lemma ClearedTidy(st: State)
    requires Tidy(st) && st.channel != []
    ensures Tidy(Cleared(st))
  {
    assert forall s :: Count(Cleared(st), s) == Count(st, s);
  }

  /** After a completion whose session goes on with the cancellation it kept, nothing of that session
      waits or runs. */
  lemma ReceiveTidy(st: State)
    requires Tidy(st) && ChannelExact(st) && st.channel != []
    ensures Receive(st).Some? && Tidy(Receive(st).value.state)
    ensures var k, f := st.channel[0], Receive(st).value;
      f.followup.Some? && f.followup.value.RescheduleCancellation? ==>
        && k.sessionId !in f.state.active && k.sessionId !in f.state.pending && Count(f.state, k.sessionId) == 0
        && k.sessionId in f.state.cancelled
  {
    ReceiveIs(st);
    ClearedTidy(st);
    DrainTidy(Cleared(st));
    CleanupTidy(DrainQueue(Cleared(st)), st.channel[0].sessionId);
    var k, f := st.channel[0], Receive(st).value;
    if f.followup.Some? && f.followup.value.RescheduleCancellation? {
      assert k.commandId !in st.suppressed by {
        assert st.channel[0] in st.channel;
      }
      assert k.sessionId !in Cleared(st).active && Count(Cleared(st), k.sessionId) == 0;
      assert f.state == DrainQueue(Cleared(st));
    }
  }

  lemma EndTidy(st: State, s: Name, terminal: bool)
    requires Tidy(st)
    ensures Tidy(WorkerEnds(st, s, terminal))
  {
    assert forall t :: Count(WorkerEnds(st, s, terminal), t) == Count(st, t);
  }
}
