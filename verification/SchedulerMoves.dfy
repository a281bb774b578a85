/** What each operation of the scheduler does, told on its parts: which list a command joins and at which
    end, which permits and flags change, and what is sent back. */
module SchedulerMoves {
  import opened Protocol
  import opened SchedulerState
  import opened SchedulerRuns

  /** Nothing but what is listed has changed: the session has a control, and the command one new place. */
  predicate Settled(st: State, r: State, c: CommandEnvelope) {
    r.known == st.known + {c.sessionId} && r.pending == st.pending
  }

  predicate Queued(st: State, r: State, c: CommandEnvelope) {
    && r.queued == st.queued + [c] && r.spawned == st.spawned && r.active == st.active && r.running == st.running
    && r.free == st.free && r.channel == st.channel && r.suppressed == st.suppressed && r.ended == st.ended
  }

  predicate Given(st: State, r: State, c: CommandEnvelope) {
    && r.queued == st.queued && r.spawned == st.spawned + [c] && r.active == st.active[c.sessionId := c.commandId]
    && r.running == st.running + {c.sessionId} && r.free + 1 == st.free && r.channel == st.channel
    && r.suppressed == st.suppressed && r.ended == st.ended
  }

  /** Not run at all, and reported; the report ends the session unless one before has. */
  predicate Withheld(st: State, r: State, c: CommandEnvelope) {
    && r.queued == st.queued && r.spawned == st.spawned && r.active == st.active && r.running == st.running
    && r.free == st.free && r.suppressed == st.suppressed[c.commandId := c.sessionId]
    && r.ended == st.ended + {c.sessionId}
    && r.channel == st.channel + [Completion(c.sessionId, c.commandId, c.sessionId !in st.ended)]
  }

  /** Work is withheld in a cancelled session, waits at the back for its session or a permit, and otherwise
      goes to a worker at once. */
  lemma WorkAdmitted(st: State, c: CommandEnvelope)
    requires !IsCancel(c)
    ensures var r := Schedule(st, c);
      && Settled(st, r, c) && r.cancelled == st.cancelled
      && if c.sessionId in st.cancelled then Withheld(st, r, c)
         else if c.sessionId in st.active || st.free == 0 then Queued(st, r, c)
         else Given(st, r, c)
  {
  }

  /** A cancellation that is scheduled again takes its turn like work, also in a cancelled session. */
  lemma CancellationRescheduled(st: State, c: CommandEnvelope)
    requires IsCancel(c)
    ensures var r := ScheduleRuntime(st, c);
      && Settled(st, r, c) && r.cancelled == st.cancelled
      && if c.sessionId in st.active || st.free == 0 then Queued(st, r, c) else Given(st, r, c)
  {
  }

  /** The queue without one session, in its order. */
  lemma {:induction false} RemovedFilters(a: seq<CommandEnvelope>, b: seq<CommandEnvelope>, s: Name)
    ensures Removed(a + b, s) == Removed(a, s) + Removed(b, s)
  {
    if a == [] {
      assert a + b == b;
    } else {
      assert (a + b)[1..] == a[1..] + b;
      RemovedFilters(a[1..], b, s);
    }
  }

  lemma RemovedOne(c: CommandEnvelope, s: Name)
    ensures Removed([c], s) == if c.sessionId == s then [] else [c]
  {
    assert [c][1..] == [];
  }

  /** The reports of commands withheld together: one each, in order, of which the first ends the session if
      nothing before has. */
  predicate ReportsOf(ks: seq<Completion>, cs: seq<CommandEnvelope>, s: Name, ended: bool) {
    && |ks| == |cs|
    && forall i | 0 <= i < |cs| :: ks[i] == Completion(s, cs[i].commandId, i == 0 && !ended)
  }

  lemma OneReportMore(ks: seq<Completion>, cs: seq<CommandEnvelope>, s: Name, ended: bool)
    requires cs != [] && ReportsOf(ks, cs[1..], s, true)
    ensures ReportsOf([Completion(s, cs[0].commandId, !ended)] + ks, cs, s, ended)
  {
  }

  lemma {:induction false} WithheldReports(st: State, cs: seq<CommandEnvelope>, s: Name)
    requires forall c | c in cs :: c.sessionId == s
    ensures var r := SuppressAll(st, cs);
      st.channel <= r.channel && ReportsOf(r.channel[|st.channel|..], cs, s, s in st.ended)
    decreases |cs|
  {
    if cs != [] {
      var u, r := Suppress(st, cs[0]), SuppressAll(st, cs);
      WithheldReports(u, cs[1..], s);
      OneReportMore(r.channel[|u.channel|..], cs, s, s in st.ended);
      assert r.channel[|st.channel|..]
          == [Completion(s, cs[0].commandId, s !in st.ended)] + r.channel[|u.channel|..];
    }
  }

  lemma {:induction false} WithheldIds(st: State, cs: seq<CommandEnvelope>)
    ensures SuppressAll(st, cs).suppressed.Keys == st.suppressed.Keys + Ids(cs)
    decreases |cs|
  {
    if cs != [] {
      WithheldIds(Suppress(st, cs[0]), cs[1..]);
      HeadIds(cs);
    }
  }

  lemma {:induction false} OfSessionOnly(q: seq<CommandEnvelope>, s: Name)
    ensures forall c | c in OfSession(q, s) :: c.sessionId == s
    ensures (OfSession(q, s) == [] <==> s !in Sessions(q))
  {
    if q != [] {
      OfSessionOnly(q[1..], s);
      HeadIds(q);
    }
  }

  /** A cancellation flags its session and takes what waits for it out of the queue. With work under way or
      waiting, it is kept, or dropped for one kept before, and what waited is withheld; with neither, it
      takes its own turn, unless one is kept. */
  lemma CancellationAdmitted(st: State, c: CommandEnvelope)
    requires IsCancel(c)
    ensures var r, s := Schedule(st, c), c.sessionId;
      var waiting := OfSession(st.queued, s);
      && r.known == st.known + {s} && r.cancelled == st.cancelled + {s}
      && if s in st.active || s in Sessions(st.queued) then
           && r.queued == Removed(st.queued, s) && r.spawned == st.spawned && r.active == st.active
           && r.free == st.free && r.running == st.running
           && r.pending == (if s in st.pending then st.pending else st.pending[s := c])
           && st.channel <= r.channel && ReportsOf(r.channel[|st.channel|..], waiting, s, s in st.ended)
           && r.suppressed.Keys == st.suppressed.Keys + Ids(waiting)
         else
           && Removed(st.queued, s) == st.queued && r.pending == st.pending
           && if s in st.pending then r == st.(known := r.known, cancelled := r.cancelled)
              else if st.free == 0 then Queued(st, r, c) else Given(st, r, c)
  {
    var s := c.sessionId;
    OfSessionOnly(st.queued, s);
    var admitted := st.(known := st.known + {s});
    var flagged := admitted.(cancelled := st.cancelled + {s}, queued := Removed(st.queued, s));
    if s in st.active || s in Sessions(st.queued) {
      var kept := if s in st.pending then flagged else flagged.(pending := st.pending[s := c]);
      WithheldReports(kept, OfSession(st.queued, s), s);
      WithheldIds(kept, OfSession(st.queued, s));
      SuppressAllFrame(kept, OfSession(st.queued, s));
    } else {
      NothingRemoved(st.queued, s);
    }
  }

  lemma {:induction false} NothingRemoved(q: seq<CommandEnvelope>, s: Name)
    requires s !in Sessions(q)
    ensures Removed(q, s) == q
  {
    if q != [] {
      HeadIds(q);
      NothingRemoved(q[1..], s);
    }
  }

  /** A worker that ends gives its permit back and sends one completion, of the command it had. */
  lemma WorkerReports(st: State, s: Name, terminal: bool)
    ensures var r := WorkerEnds(st, s, terminal);
      if s in st.running && s in st.active then
        && r.free == st.free + 1 && r.running == st.running - {s}
        && r.channel == st.channel + [Completion(s, st.active[s], terminal)]
        && r.queued == st.queued && r.spawned == st.spawned && r.active == st.active && r.pending == st.pending
        && r.suppressed == st.suppressed && r.ended == st.ended && r.cancelled == st.cancelled && r.known == st.known
      else r == st
  {
  }

  /** The control of a session goes exactly when the session has ended and nothing needs it: no worker,
      nothing queued, nothing withheld and unreported, no cancellation kept. */
  lemma ControlDropped(st: State, s: Name)
    ensures var r := Cleanup(st, s);
      var needed := s in st.active || (exists c | c in st.queued :: c.sessionId == s)
                    || (exists id | id in st.suppressed :: st.suppressed[id] == s) || s in st.pending;
      && r.known == (if s in st.ended && !needed then st.known - {s} else st.known)
      && (s in r.known ==> r == st)
      && (s in st.known && s !in r.known ==>
            r == st.(known := r.known, cancelled := st.cancelled - {s}, ended := st.ended - {s}))
  {
    assert s in Sessions(st.queued) <==> exists c | c in st.queued :: c.sessionId == s;
  }

  /** What a completion brings about: it is expected exactly of a withheld command or of the one its session
      runs; a kept cancellation is finished if the session has ended by then and scheduled again if not; a
      control can go only with the last of an ended session. */
  lemma CompletionHandled(st: State, k: Completion)
    ensures FinishActive(st, k).None? <==>
      k.commandId !in st.suppressed && !(k.sessionId in st.active && st.active[k.sessionId] == k.commandId)
    ensures FinishActive(st, k).Some? ==>
      var f, s := FinishActive(st, k).value, k.sessionId;
      var over := k.terminal || s in st.ended;
      && f.followup == (if s !in st.pending then None
                        else if over then Some(FinishCancellation(st.pending[s]))
                        else Some(RescheduleCancellation(st.pending[s])))
      && f.state.pending == st.pending - {s}
      && st.spawned <= f.state.spawned && st.channel <= f.state.channel
      && f.state.known == (if f.followup.None? && over && s !in f.state.known then st.known - {s} else st.known)
  {
    if FinishActive(st, k).Some? {
      var retired := Retire(st, k);
      var noted := if k.terminal then retired.(ended := retired.ended + {k.sessionId}) else retired;
      DrainFrame(noted.(pending := noted.pending - {k.sessionId}));
    }
  }

  lemma {:induction false} SpawnAllFrame(st: State, cs: seq<CommandEnvelope>)
    requires |cs| <= st.free
    ensures var r := SpawnAll(st, cs);
      && r.spawned == st.spawned + cs && r.free == st.free - |cs| && r.queued == st.queued
      && r.channel == st.channel && r.pending == st.pending && r.known == st.known && r.ended == st.ended
      && r.suppressed == st.suppressed && r.cancelled == st.cancelled
    decreases |cs|
  {
    if cs != [] {
      SpawnAllFrame(Spawn(st, cs[0]), cs[1..]);
      assert cs == [cs[0]] + cs[1..];
    }
  }

  lemma {:induction false} SuppressAllFrame(st: State, cs: seq<CommandEnvelope>)
    ensures var r := SuppressAll(st, cs);
      && r.spawned == st.spawned && r.free == st.free && r.queued == st.queued && r.active == st.active
      && r.running == st.running
      && st.channel <= r.channel && |r.channel| == |st.channel| + |cs| && r.pending == st.pending
      && r.known == st.known && r.cancelled == st.cancelled
    decreases |cs|
  {
    if cs != [] {
      SuppressAllFrame(Suppress(st, cs[0]), cs[1..]);
    }
  }

  /** A drain gives workers what its pass starts, reports what it suppresses, and leaves what was not reached
      in front of what was passed over. */
  lemma DrainFrame(st: State)
    ensures var r, p := DrainQueue(st), PassOf(st);
      && r.queued == p.rest + p.requeued && r.spawned == st.spawned + p.spawned && r.free == st.free - |p.spawned|
      && st.channel <= r.channel && |r.channel| == |st.channel| + |p.suppressed|
      && r.pending == st.pending && r.known == st.known && r.cancelled == st.cancelled
  {
    var p := PassOf(st);
    SpawnAllFrame(st.(queued := QueueAfter(p)), p.spawned);
    SuppressAllFrame(SpawnAll(st.(queued := QueueAfter(p)), p.spawned), p.suppressed);
  }
}
