/** The scheduler's operations on its state and what every one of them keeps. */
module SchedulerRuns {
  import opened Protocol
  import opened SchedulerState

  /* ---- Operations ---- */

  function SpawnAll(st: State, cs: seq<CommandEnvelope>): State
    requires |cs| <= st.free
    decreases |cs|
  {
    if cs == [] then st else SpawnAll(Spawn(st, cs[0]), cs[1..])
  }

  function SuppressAll(st: State, cs: seq<CommandEnvelope>): State
    decreases |cs|
  {
    if cs == [] then st else SuppressAll(Suppress(st, cs[0]), cs[1..])
  }

  function PassOf(st: State): (p: Pass)
    ensures |p.spawned| <= st.free
  {
    DrainLawful(st.queued, st.active.Keys, st.free, st.cancelled);
    Drain(st.queued, st.active.Keys, st.free, st.cancelled)
  }

  function DrainQueue(st: State): State {
    var p := PassOf(st);
    SuppressAll(SpawnAll(st.(queued := QueueAfter(p)), p.spawned), p.suppressed)
  }

  function Removed(q: seq<CommandEnvelope>, s: Name): seq<CommandEnvelope> {
    if q == [] then []
    else (if q[0].sessionId == s then [] else [q[0]]) + Removed(q[1..], s)
  }

  /** A cancellation takes the session's waiting commands out of the queue; with work under way or
      waiting it is kept until that work returns, otherwise it runs itself. A second one is
      dropped while the first is kept. */
  function ScheduleCancellation(st: State, c: CommandEnvelope): State {
    var s := c.sessionId;
    var flagged := st.(cancelled := st.cancelled + {s}, queued := Removed(st.queued, s));
    var waiting := OfSession(st.queued, s);
    if s in st.active || waiting != [] then
      SuppressAll(if s in st.pending then flagged else flagged.(pending := st.pending[s := c]), waiting)
    else if s in st.pending then flagged
    else ScheduleInner(flagged, c)
  }

  function Schedule(st: State, c: CommandEnvelope): State {
    var admitted := st.(known := st.known + {c.sessionId});
    if IsCancel(c) then ScheduleCancellation(admitted, c)
    else if c.sessionId in st.cancelled then Suppress(admitted, c)
    else ScheduleInner(admitted, c)
  }

  function ScheduleRuntime(st: State, c: CommandEnvelope): State {
    ScheduleInner(st.(known := st.known + {c.sessionId}), c)
  }

  /** A worker ends: its permit is free again and its completion is on the way. */
  function WorkerEnds(st: State, s: Name, terminal: bool): State {
    if s !in st.running || s !in st.active then st
    else st.(running := st.running - {s}, free := st.free + 1,
             channel := st.channel + [Completion(s, st.active[s], terminal)])
  }

  predicate HasSuppressed(st: State, s: Name) {
    exists id | id in st.suppressed :: st.suppressed[id] == s
  }

  function Cleanup(st: State, s: Name): State {
    if s in st.known && s in st.ended && s !in st.active && s !in Sessions(st.queued)
       && !HasSuppressed(st, s) && s !in st.pending
    then st.(known := st.known - {s}, cancelled := st.cancelled - {s}, ended := st.ended - {s})
    else st
  }

  predicate Expects(st: State, k: Completion) {
    k.commandId in st.suppressed || (k.sessionId in st.active && st.active[k.sessionId] == k.commandId)
  }

  /** Take a finished command off the books. */
  function Retire(st: State, k: Completion): State {
    if k.commandId in st.suppressed then st.(suppressed := st.suppressed - {k.commandId})
    else st.(active := st.active - {k.sessionId})
  }

  datatype Finished = Finished(state: State, followup: Option<Followup>)

  /** Handle one completion: nothing when the scheduler does not expect it. */
  function FinishActive(st: State, k: Completion): Option<Finished> {
    if !Expects(st, k) then None
    else
      var retired := Retire(st, k);
      var noted := if k.terminal then retired.(ended := retired.ended + {k.sessionId}) else retired;
      var ended := k.sessionId in noted.ended;
      var followup :=
        if k.sessionId !in st.pending then None
        else if ended then Some(FinishCancellation(st.pending[k.sessionId]))
        else Some(RescheduleCancellation(st.pending[k.sessionId]));
      var drained := DrainQueue(noted.(pending := noted.pending - {k.sessionId}));
      Some(Finished(if followup.None? && ended then Cleanup(drained, k.sessionId) else drained, followup))
  }

  /** Receive the next completion. */
  function Receive(st: State): Option<Finished> {
    if st.channel == [] then None else FinishActive(st.(channel := st.channel[1..]), st.channel[0])
  }

  /* ---- Invariant ---- */

  predicate SameId(q: seq<CommandEnvelope>, i: int, j: int) {
    0 <= i < j < |q| && q[i].commandId == q[j].commandId
  }

  ghost predicate DistinctIds(q: seq<CommandEnvelope>) {
    forall i, j :: !SameId(q, i, j)
  }

  predicate SameCommand(active: map<Name, Name>, s: Name, t: Name) {
    s in active && t in active && active[s] == active[t]
  }

  function ActiveIds(active: map<Name, Name>): set<Name> {
    set s | s in active :: active[s]
  }

  /** The commands in hand: waiting, with a worker, or suppressed and not yet finished. */
  function Held(st: State): set<Name> {
    Ids(st.queued) + ActiveIds(st.active) + st.suppressed.Keys
  }

  /** Each command in hand is in exactly one place. */
  ghost predicate OnePlace(st: State) {
    && DistinctIds(st.queued)
    && (forall s, t :: SameCommand(st.active, s, t) ==> s == t)
    && Ids(st.queued) !! ActiveIds(st.active) && Ids(st.queued) !! st.suppressed.Keys
    && ActiveIds(st.active) !! st.suppressed.Keys
  }

  /** Whatever is in hand has its session's control. */
  ghost predicate Controlled(st: State) {
    && Sessions(st.queued) <= st.known && st.active.Keys <= st.known
    && (forall id | id in st.suppressed :: st.suppressed[id] in st.known)
    && st.pending.Keys <= st.known && st.cancelled <= st.known && st.ended <= st.known
    && forall s | s in st.pending :: st.pending[s].sessionId == s && IsCancel(st.pending[s])
  }

  /** Four permits in all, each held by the worker of one active session. */
  ghost predicate PermitsExact(st: State) {
    st.free + |st.running| == MAX_RUNTIME_CONCURRENCY && st.running <= st.active.Keys
  }

  predicate OnItsWay(channel: seq<Completion>, id: Name) {
    exists k | k in channel :: k.commandId == id
  }

  predicate Twice(channel: seq<Completion>, i: int, j: int) {
    0 <= i < j < |channel| && channel[i].commandId == channel[j].commandId
  }

  /** A completion is on its way for exactly the suppressed commands and the active ones whose
      worker has ended, and for each only once. */
  ghost predicate ChannelExact(st: State) {
    && (forall k | k in st.channel ::
          if k.commandId in st.suppressed then st.suppressed[k.commandId] == k.sessionId
          else k.sessionId in st.active && st.active[k.sessionId] == k.commandId && k.sessionId !in st.running)
    && (forall i, j :: !Twice(st.channel, i, j))
    && (forall id | id in st.suppressed :: OnItsWay(st.channel, id))
    && (forall s | s in st.active && s !in st.running :: OnItsWay(st.channel, st.active[s]))
  }

  ghost predicate Inv(st: State) {
    OnePlace(st) && Controlled(st) && PermitsExact(st) && ChannelExact(st)
  }

  /** While anything waits, something is active, whose completion will drain the queue. */
  predicate NotStranded(st: State) {
    st.queued != [] ==> st.active != map[]
  }

  /** What was given to a worker since then was not barred then. */
  ghost predicate SpawnsLawful(st: State, next: State) {
    && st.spawned <= next.spawned
    && forall i | |st.spawned| <= i < |next.spawned| :: !Barred(next.spawned[i], st.cancelled)
  }

  /* ---- Single moves keep the invariant ---- */

  lemma ConcatIds(a: seq<CommandEnvelope>, b: seq<CommandEnvelope>)
    ensures Ids(a + b) == Ids(a) + Ids(b) && Sessions(a + b) == Sessions(a) + Sessions(b)
  {
  }

  lemma OnePlaceSuppress(st: State, c: CommandEnvelope)
    requires OnePlace(st) && c.commandId !in Held(st)
    ensures OnePlace(Suppress(st, c)) && Held(Suppress(st, c)) == Held(st) + {c.commandId}
  {
    assert ActiveIds(Suppress(st, c).active) == ActiveIds(st.active);
  }

  lemma AppendOnce(channel: seq<Completion>, k: Completion)
    requires forall i, j :: !Twice(channel, i, j)
    requires forall c | c in channel :: c.commandId != k.commandId
    ensures forall i, j :: !Twice(channel + [k], i, j)
    ensures OnItsWay(channel + [k], k.commandId)
    ensures forall id | OnItsWay(channel, id) :: OnItsWay(channel + [k], id)
  {
    forall i, j | 0 <= i < j <= |channel| ensures !Twice(channel + [k], i, j) {
      assert !Twice(channel, i, j);
      assert channel[i] in channel;
    }
    assert (channel + [k])[|channel|] == k;
  }

  lemma ChannelSuppress(st: State, c: CommandEnvelope)
    requires ChannelExact(st) && c.commandId !in Held(st)
    ensures ChannelExact(Suppress(st, c))
  {
    var r := Suppress(st, c);
    forall k | k in st.channel ensures k.commandId != c.commandId {
      assert k.commandId !in st.suppressed ==> st.active[k.sessionId] in ActiveIds(st.active);
    }
    AppendOnce(st.channel, r.channel[|st.channel|]);
  }

  lemma SuppressKeeps(st: State, c: CommandEnvelope)
    requires Inv(st) && c.commandId !in Held(st) && c.sessionId in st.known
    ensures Inv(Suppress(st, c)) && Held(Suppress(st, c)) == Held(st) + {c.commandId}
  {
    OnePlaceSuppress(st, c);
    ChannelSuppress(st, c);
  }

  lemma SpawnIds(st: State, c: CommandEnvelope)
    requires st.free > 0 && c.sessionId !in st.active
    ensures ActiveIds(Spawn(st, c).active) == ActiveIds(st.active) + {c.commandId}
  {
    var r := Spawn(st, c);
    forall s | s in st.active ensures st.active[s] in ActiveIds(r.active) {
      assert s in r.active && r.active[s] == st.active[s];
    }
    assert r.active[c.sessionId] == c.commandId;
  }

  lemma SpawnOnePlace(st: State, c: CommandEnvelope)
    requires OnePlace(st) && c.commandId !in Held(st) && c.sessionId !in st.active && st.free > 0
    ensures OnePlace(Spawn(st, c)) && Held(Spawn(st, c)) == Held(st) + {c.commandId}
  {
    SpawnIds(st, c);
    var r := Spawn(st, c);
    forall s, t | SameCommand(r.active, s, t) ensures s == t {
      assert s in st.active ==> st.active[s] in ActiveIds(st.active);
      assert t in st.active ==> st.active[t] in ActiveIds(st.active);
      assert s in st.active && t in st.active ==> SameCommand(st.active, s, t);
    }
  }

  lemma SpawnChannel(st: State, c: CommandEnvelope)
    requires ChannelExact(st) && st.running <= st.active.Keys && c.sessionId !in st.active && st.free > 0
    ensures ChannelExact(Spawn(st, c))
  {
    var r := Spawn(st, c);
    forall id | id in r.suppressed ensures OnItsWay(r.channel, id) {
      assert OnItsWay(st.channel, id);
    }
    forall s | s in r.active && s !in r.running ensures OnItsWay(r.channel, r.active[s]) {
      assert OnItsWay(st.channel, st.active[s]);
    }
  }

  lemma SpawnKeeps(st: State, c: CommandEnvelope)
    requires Inv(st) && c.commandId !in Held(st) && c.sessionId in st.known
    requires c.sessionId !in st.active && st.free > 0
    ensures Inv(Spawn(st, c)) && Held(Spawn(st, c)) == Held(st) + {c.commandId}
  {
    SpawnOnePlace(st, c);
    SpawnChannel(st, c);
    assert |st.running + {c.sessionId}| == |st.running| + 1;
  }

  /** The queue may be any list whose commands are fresh and controlled. */
  lemma RequeueKeeps(st: State, q: seq<CommandEnvelope>)
    requires Inv(st) && DistinctIds(q) && Sessions(q) <= st.known
    requires Ids(q) !! ActiveIds(st.active) && Ids(q) !! st.suppressed.Keys
    ensures Inv(st.(queued := q)) && Held(st.(queued := q)) == Ids(q) + ActiveIds(st.active) + st.suppressed.Keys
  {
    var r := st.(queued := q);
  }

  lemma EnqueueKeeps(st: State, c: CommandEnvelope)
    requires Inv(st) && c.commandId !in Held(st) && c.sessionId in st.known
    ensures Inv(Enqueue(st, c)) && Held(Enqueue(st, c)) == Held(st) + {c.commandId}
  {
    ConcatIds(st.queued, [c]);
    assert Ids([c]) == {c.commandId} && Sessions([c]) == {c.sessionId};
    ConcatDistinct(st.queued, [c]);
    RequeueKeeps(st, st.queued + [c]);
  }

  lemma InnerKeeps(st: State, c: CommandEnvelope)
    requires Inv(st) && NotStranded(st) && c.commandId !in Held(st) && c.sessionId in st.known
    ensures var r := ScheduleInner(st, c);
      Inv(r) && NotStranded(r) && Held(r) == Held(st) + {c.commandId} && SpawnsLawful(st, r)
  {
    if Barred(c, st.cancelled) {
      SuppressKeeps(st, c);
    } else if c.sessionId in st.active || st.free == 0 {
      EnqueueKeeps(st, c);
      if st.free == 0 {
        assert st.running != {};
      }
    } else {
      SpawnKeeps(st, c);
    }
  }

  /* ---- Lists of moves ---- */

  lemma HeadIds(cs: seq<CommandEnvelope>)
    requires cs != []
    ensures cs == [cs[0]] + cs[1..]
    ensures Ids(cs) == {cs[0].commandId} + Ids(cs[1..]) && Sessions(cs) == {cs[0].sessionId} + Sessions(cs[1..])
    ensures DistinctIds(cs) ==> DistinctIds(cs[1..]) && cs[0].commandId !in Ids(cs[1..])
    ensures DistinctSessions(cs) ==> DistinctSessions(cs[1..]) && cs[0].sessionId !in Sessions(cs[1..])
  {
    assert cs == [cs[0]] + cs[1..];
    ConcatIds([cs[0]], cs[1..]);
    assert Ids([cs[0]]) == {cs[0].commandId} && Sessions([cs[0]]) == {cs[0].sessionId};
    if DistinctIds(cs) {
      PartsDistinct([cs[0]], cs[1..]);
    }
  }

  lemma {:induction false} SuppressAllKeeps(st: State, cs: seq<CommandEnvelope>)
    requires Inv(st) && DistinctIds(cs) && Ids(cs) !! Held(st) && Sessions(cs) <= st.known
    ensures var r := SuppressAll(st, cs);
      && Inv(r) && Held(r) == Held(st) + Ids(cs)
      && r.active == st.active && r.queued == st.queued && r.free == st.free && r.spawned == st.spawned
      && r.running == st.running && r.cancelled == st.cancelled && r.known == st.known && r.pending == st.pending
    decreases |cs|
  {
    if cs != [] {
      HeadIds(cs);
      SuppressKeeps(st, cs[0]);
      SuppressAllKeeps(Suppress(st, cs[0]), cs[1..]);
    }
  }

  lemma {:induction false} SpawnAllEffect(st: State, cs: seq<CommandEnvelope>)
    requires |cs| <= st.free
    ensures var r := SpawnAll(st, cs);
      && r.active.Keys == st.active.Keys + Sessions(cs) && r.queued == st.queued && r.free == st.free - |cs|
      && r.spawned == st.spawned + cs && r.cancelled == st.cancelled && r.known == st.known && r.pending == st.pending
    decreases |cs|
  {
    if cs != [] {
      assert cs == [cs[0]] + cs[1..];
      SpawnAllEffect(Spawn(st, cs[0]), cs[1..]);
      assert st.spawned + cs == (st.spawned + [cs[0]]) + cs[1..];
      ConcatIds([cs[0]], cs[1..]);
      assert Sessions([cs[0]]) == {cs[0].sessionId};
    }
  }

  lemma {:induction false} SpawnAllKeeps(st: State, cs: seq<CommandEnvelope>)
    requires Inv(st) && DistinctIds(cs) && Ids(cs) !! Held(st) && Sessions(cs) <= st.known
    requires |cs| <= st.free && DistinctSessions(cs) && Sessions(cs) !! st.active.Keys
    ensures Inv(SpawnAll(st, cs)) && Held(SpawnAll(st, cs)) == Held(st) + Ids(cs)
    decreases |cs|
  {
    if cs != [] {
      HeadIds(cs);
      SpawnKeeps(st, cs[0]);
      SpawnAllKeeps(Spawn(st, cs[0]), cs[1..]);
    }
  }

  /** Two lists one after the other without a repeated id. */
  lemma ConcatDistinct(a: seq<CommandEnvelope>, b: seq<CommandEnvelope>)
    ensures DistinctIds(a + b) <==> DistinctIds(a) && DistinctIds(b) && Ids(a) !! Ids(b)
  {
    if DistinctIds(a + b) {
      PartsDistinct(a, b);
    }
    if DistinctIds(a) && DistinctIds(b) && Ids(a) !! Ids(b) {
      forall i, j | 0 <= i < j < |a + b| ensures !SameId(a + b, i, j) {
        assert !SameId(a, i, j) && !SameId(b, i - |a|, j - |a|);
        assert i < |a| <= j ==> a[i].commandId in Ids(a) && b[j - |a|].commandId in Ids(b);
      }
    }
  }

  lemma PartsDistinct(a: seq<CommandEnvelope>, b: seq<CommandEnvelope>)
    requires DistinctIds(a + b)
    ensures DistinctIds(a) && DistinctIds(b) && Ids(a) !! Ids(b)
  {
    forall i, j ensures !SameId(a, i, j) && !SameId(b, i, j) {
      assert !SameId(a + b, i, j) && !SameId(a + b, |a| + i, |a| + j);
    }
    forall x, y | x in a && y in b ensures x.commandId != y.commandId {
      var i :| 0 <= i < |a| && a[i] == x;
      var j :| 0 <= j < |b| && b[j] == y;
      assert !SameId(a + b, i, |a| + j);
    }
  }

  lemma PrependDistinct(c: CommandEnvelope, q: seq<CommandEnvelope>)
    requires DistinctIds(q) && c.commandId !in Ids(q)
    ensures DistinctIds([c] + q) && Ids([c] + q) == {c.commandId} + Ids(q)
    ensures Sessions([c] + q) == {c.sessionId} + Sessions(q)
  {
    ConcatIds([c], q);
    assert Ids([c]) == {c.commandId} && Sessions([c]) == {c.sessionId};
    ConcatDistinct([c], q);
  }

  lemma InsertDistinct(a: seq<CommandEnvelope>, c: CommandEnvelope, b: seq<CommandEnvelope>)
    requires DistinctIds(a + b) && c.commandId !in Ids(a + b)
    ensures DistinctIds(a + ([c] + b))
    ensures Ids(a + ([c] + b)) == Ids(a + b) + {c.commandId}
    ensures Sessions(a + ([c] + b)) == Sessions(a + b) + {c.sessionId}
  {
    ConcatDistinct(a, b);
    ConcatIds(a, b);
    PrependDistinct(c, b);
    ConcatDistinct(a, [c] + b);
    ConcatIds(a, [c] + b);
  }

  function Flat(p: Pass): seq<CommandEnvelope> {
    QueueAfter(p) + (p.spawned + p.suppressed)
  }

  /** `f` holds the commands of `q`, rearranged. */
  ghost predicate Rearranges(q: seq<CommandEnvelope>, f: seq<CommandEnvelope>) {
    DistinctIds(f) && Ids(f) == Ids(q) && Sessions(f) == Sessions(q)
  }

  lemma RearrangesMore(c: CommandEnvelope, q: seq<CommandEnvelope>, a: seq<CommandEnvelope>, b: seq<CommandEnvelope>)
    requires Rearranges(q, a + b) && c.commandId !in Ids(q)
    ensures Rearranges([c] + q, a + ([c] + b))
  {
    InsertDistinct(a, c, b);
    ConcatIds([c], q);
    assert Ids([c]) == {c.commandId} && Sessions([c]) == {c.sessionId};
  }

  lemma FlatInserts(p: Pass, c: CommandEnvelope)
    ensures Flat(p) == (QueueAfter(p) + p.spawned) + p.suppressed
    ensures Flat(p) == p.rest + (p.requeued + (p.spawned + p.suppressed))
    ensures Flat(p.(suppressed := [c] + p.suppressed)) == (QueueAfter(p) + p.spawned) + ([c] + p.suppressed)
    ensures Flat(p.(requeued := [c] + p.requeued)) == p.rest + ([c] + (p.requeued + (p.spawned + p.suppressed)))
    ensures Flat(p.(spawned := [c] + p.spawned)) == QueueAfter(p) + ([c] + (p.spawned + p.suppressed))
  {
  }

  lemma PartsInsert(c: CommandEnvelope, q: seq<CommandEnvelope>, p: Pass)
    requires Rearranges(q, Flat(p)) && c.commandId !in Ids(q)
    ensures Rearranges([c] + q, Flat(p.(suppressed := [c] + p.suppressed)))
    ensures Rearranges([c] + q, Flat(p.(requeued := [c] + p.requeued)))
    ensures Rearranges([c] + q, Flat(p.(spawned := [c] + p.spawned)))
  {
    FlatInserts(p, c);
    RearrangesMore(c, q, QueueAfter(p) + p.spawned, p.suppressed);
    RearrangesMore(c, q, p.rest, p.requeued + (p.spawned + p.suppressed));
    RearrangesMore(c, q, QueueAfter(p), p.spawned + p.suppressed);
  }

  /** The parts of a pass share out the queue. */
  lemma {:induction false} DrainShares(q: seq<CommandEnvelope>, active: set<Name>, free: nat, cancelled: set<Name>)
    requires DistinctIds(q)
    ensures Rearranges(q, Flat(Drain(q, active, free, cancelled)))
  {
    if q != [] {
      var c := q[0];
      HeadIds(q);
      if Barred(c, cancelled) || c.sessionId in active {
        DrainShares(q[1..], active, free, cancelled);
        PartsInsert(c, q[1..], Drain(q[1..], active, free, cancelled));
      } else if free > 0 {
        DrainShares(q[1..], active + {c.sessionId}, free - 1, cancelled);
        PartsInsert(c, q[1..], Drain(q[1..], active + {c.sessionId}, free - 1, cancelled));
      } else {
        assert Flat(Pass([], q, [], [])) == q;
      }
    }
  }

  lemma PartsApart(q: seq<CommandEnvelope>, p: Pass)
    requires Rearranges(q, Flat(p))
    ensures DistinctIds(QueueAfter(p)) && DistinctIds(p.spawned) && DistinctIds(p.suppressed)
    ensures Ids(QueueAfter(p)) !! Ids(p.spawned) && Ids(QueueAfter(p)) !! Ids(p.suppressed)
    ensures Ids(p.spawned) !! Ids(p.suppressed)
    ensures Ids(q) == Ids(QueueAfter(p)) + Ids(p.spawned) + Ids(p.suppressed)
    ensures Sessions(q) == Sessions(QueueAfter(p)) + Sessions(p.spawned) + Sessions(p.suppressed)
  {
    ConcatDistinct(QueueAfter(p), p.spawned + p.suppressed);
    ConcatDistinct(p.spawned, p.suppressed);
    ConcatIds(QueueAfter(p), p.spawned + p.suppressed);
    ConcatIds(p.spawned, p.suppressed);
  }

  /** Draining keeps everything in hand, starts only lawful work, and strands nothing. */
  lemma DrainKeeps(st: State)
    requires Inv(st)
    ensures var r := DrainQueue(st);
      && Inv(r) && NotStranded(r) && Held(r) == Held(st) && SpawnsLawful(st, r)
      && r.known == st.known && r.cancelled == st.cancelled && r.pending == st.pending
      && (r.free == 0 || Sessions(r.queued) <= r.active.Keys)
  {
    var p := PassOf(st);
    DrainLawful(st.queued, st.active.Keys, st.free, st.cancelled);
    DrainShares(st.queued, st.active.Keys, st.free, st.cancelled);
    DrainMoves(st, p);
    DrainSettles(st, p, DrainQueue(st));
  }

  /** What a drain leaves, spelled out. */
  ghost predicate Moved(st: State, p: Pass, r: State) {
    && r.spawned == st.spawned + p.spawned
    && r.known == st.known && r.cancelled == st.cancelled && r.pending == st.pending
    && r.free == st.free - |p.spawned| && r.active.Keys == st.active.Keys + Sessions(p.spawned)
    && r.queued == QueueAfter(p)
  }

  lemma DrainMoves(st: State, p: Pass)
    requires Inv(st) && p == PassOf(st) && Lawful(p, st.active.Keys, st.free, st.cancelled)
    requires Rearranges(st.queued, Flat(p))
    ensures Inv(DrainQueue(st)) && Held(DrainQueue(st)) == Held(st) && Moved(st, p, DrainQueue(st))
  {
    PartsApart(st.queued, p);
    DrainSpawns(st, p);
    var mid := SpawnAll(st.(queued := QueueAfter(p)), p.spawned);
    SuppressedFresh(st, p, mid);
    SuppressAllKeeps(mid, p.suppressed);
  }

  lemma SuppressedFresh(st: State, p: Pass, mid: State)
    requires OnePlace(st) && Ids(st.queued) == Ids(QueueAfter(p)) + Ids(p.spawned) + Ids(p.suppressed)
    requires Ids(QueueAfter(p)) !! Ids(p.suppressed) && Ids(p.spawned) !! Ids(p.suppressed)
    requires Held(mid) == Ids(QueueAfter(p)) + Ids(p.spawned) + ActiveIds(st.active) + st.suppressed.Keys
    ensures Ids(p.suppressed) !! Held(mid) && Held(mid) + Ids(p.suppressed) == Held(st)
  {
  }

  lemma DrainSpawns(st: State, p: Pass)
    requires Inv(st) && p == PassOf(st) && Lawful(p, st.active.Keys, st.free, st.cancelled)
    requires DistinctIds(QueueAfter(p)) && DistinctIds(p.spawned) && Ids(QueueAfter(p)) !! Ids(p.spawned)
    requires Ids(QueueAfter(p)) + Ids(p.spawned) <= Ids(st.queued)
    requires Sessions(QueueAfter(p)) + Sessions(p.spawned) <= Sessions(st.queued)
    ensures var r := SpawnAll(st.(queued := QueueAfter(p)), p.spawned);
      && Inv(r) && Held(r) == Ids(QueueAfter(p)) + Ids(p.spawned) + ActiveIds(st.active) + st.suppressed.Keys
      && Moved(st, p, r)
  {
    var left := st.(queued := QueueAfter(p));
    RequeueKeeps(st, QueueAfter(p));
    SpawnAllKeeps(left, p.spawned);
    SpawnAllEffect(left, p.spawned);
  }

  lemma DrainSettles(st: State, p: Pass, r: State)
    requires p == PassOf(st) && PermitsExact(r) && Moved(st, p, r) && Lawful(p, st.active.Keys, st.free, st.cancelled)
    ensures NotStranded(r) && (r.free == 0 || Sessions(r.queued) <= r.active.Keys) && SpawnsLawful(st, r)
  {
    WorkConserving(st.queued, st.active.Keys, st.free, st.cancelled);
    if r.queued != [] {
      assert r.queued[0].sessionId in Sessions(r.queued);
      assert r.free == 0 ==> r.running != {};
    }
    forall i | |st.spawned| <= i < |r.spawned| ensures !Barred(r.spawned[i], st.cancelled) {
      assert r.spawned[i] in p.spawned;
    }
  }

  lemma RearrangesEither(c: CommandEnvelope, q: seq<CommandEnvelope>, a: seq<CommandEnvelope>, b: seq<CommandEnvelope>)
    requires Rearranges(q, a + b) && c.commandId !in Ids(q)
    ensures Rearranges([c] + q, a + ([c] + b)) && Rearranges([c] + q, ([c] + a) + b)
  {
    RearrangesMore(c, q, a, b);
    assert [] + (a + b) == a + b;
    RearrangesMore(c, q, [], a + b);
    assert [] + ([c] + (a + b)) == ([c] + a) + b;
  }

  lemma {:induction false} RemovedShares(q: seq<CommandEnvelope>, s: Name)
    requires DistinctIds(q)
    ensures Rearranges(q, Removed(q, s) + OfSession(q, s))
  {
    if q != [] {
      var a, b := Removed(q[1..], s), OfSession(q[1..], s);
      HeadIds(q);
      RemovedShares(q[1..], s);
      RearrangesEither(q[0], q[1..], a, b);
      assert [] + a == a && [] + b == b;
    }
  }

  lemma {:induction false} RemovedSessions(q: seq<CommandEnvelope>, s: Name)
    ensures s !in Sessions(Removed(q, s)) && Sessions(OfSession(q, s)) <= {s}
  {
    OfSessionContents(q, s);
    if q != [] {
      RemovedSessions(q[1..], s);
      if q[0].sessionId != s {
        ConcatIds([q[0]], Removed(q[1..], s));
      } else {
        assert Removed(q, s) == Removed(q[1..], s);
      }
    }
  }

  /** Taking a session's commands out of a queue splits it. */
  lemma RemovedParts(q: seq<CommandEnvelope>, s: Name)
    requires DistinctIds(q)
    ensures var a, b := OfSession(q, s), Removed(q, s);
      && DistinctIds(a) && DistinctIds(b) && Ids(a) !! Ids(b) && Ids(a) + Ids(b) == Ids(q)
      && Sessions(a) <= {s} && Sessions(a) + Sessions(b) == Sessions(q) && s !in Sessions(b)
  {
    RemovedShares(q, s);
    RemovedSessions(q, s);
    ConcatDistinct(Removed(q, s), OfSession(q, s));
    ConcatIds(Removed(q, s), OfSession(q, s));
  }

  /* ---- The operations keep the invariant ---- */

  /** Learning of a session, or flagging one that is known, touches nothing in hand. */
  lemma FlagsKeep(st: State, known: set<Name>, cancelled: set<Name>, ended: set<Name>)
    requires Inv(st) && st.known <= known && cancelled <= known && ended <= known
    ensures var r := st.(known := known, cancelled := cancelled, ended := ended);
      Inv(r) && Held(r) == Held(st)
  {
    var r := st.(known := known, cancelled := cancelled, ended := ended);
  }

  lemma PendingKeeps(st: State, pending: map<Name, CommandEnvelope>)
    requires Inv(st) && pending.Keys <= st.known
    requires forall s | s in pending :: pending[s].sessionId == s && IsCancel(pending[s])
    ensures Inv(st.(pending := pending)) && Held(st.(pending := pending)) == Held(st)
  {
    var r := st.(pending := pending);
  }

  /** The state of a cancellation once its session is flagged and its queue emptied. */
  function Flagged(st: State, c: CommandEnvelope): State {
    st.(cancelled := st.cancelled + {c.sessionId}, queued := Removed(st.queued, c.sessionId))
  }

  lemma FlaggedKeeps(st: State, c: CommandEnvelope)
    requires Inv(st) && NotStranded(st) && c.sessionId in st.known
    ensures var r := Flagged(st, c);
      && Inv(r) && NotStranded(r) && Held(r) + Ids(OfSession(st.queued, c.sessionId)) == Held(st)
      && DistinctIds(OfSession(st.queued, c.sessionId)) && Ids(OfSession(st.queued, c.sessionId)) !! Held(r)
      && Sessions(OfSession(st.queued, c.sessionId)) <= st.known
  {
    var s := c.sessionId;
    RemovedParts(st.queued, s);
    FlagsKeep(st, st.known, st.cancelled + {s}, st.ended);
    var flagged := st.(cancelled := st.cancelled + {s});
    RequeueKeeps(flagged, Removed(st.queued, s));
    assert Flagged(st, c) == flagged.(queued := Removed(st.queued, s));
    RemovedNotStranded(st, s);
  }

  lemma RemovedNotStranded(st: State, s: Name)
    requires NotStranded(st)
    ensures Removed(st.queued, s) != [] ==> st.active != map[]
  {
    if st.queued == [] {
      assert Removed(st.queued, s) == [];
    }
  }

  /** With work of its session under way or waiting, a cancellation is kept for later. */
  lemma InterruptKeeps(st: State, c: CommandEnvelope)
    requires Inv(st) && NotStranded(st) && IsCancel(c) && c.sessionId in st.known
    ensures var r := SuppressAll(Interrupting(st, c), OfSession(st.queued, c.sessionId));
      Inv(r) && NotStranded(r) && SpawnsLawful(st, r) && c.sessionId in r.cancelled && Held(r) == Held(st)
  {
    var flagged := Flagged(st, c);
    FlaggedKeeps(st, c);
    if c.sessionId !in st.pending {
      PendingKeeps(flagged, st.pending[c.sessionId := c]);
    }
    SuppressAllKeeps(Interrupting(st, c), OfSession(st.queued, c.sessionId));
  }

  function Interrupting(st: State, c: CommandEnvelope): State {
    if c.sessionId in st.pending then Flagged(st, c)
    else Flagged(st, c).(pending := st.pending[c.sessionId := c])
  }

  lemma OwnKeeps(st: State, c: CommandEnvelope)
    requires Inv(st) && NotStranded(st) && IsCancel(c) && c.sessionId in st.known && c.commandId !in Held(st)
    requires TakesPlace(st, c)
    ensures var r := ScheduleInner(Flagged(st, c), c);
      && Inv(r) && NotStranded(r) && SpawnsLawful(st, r)
      && c.sessionId in r.cancelled && Held(r) == Held(st) + {c.commandId}
  {
    FlaggedKeeps(st, c);
    assert Ids(OfSession(st.queued, c.sessionId)) == {};
    InnerKeeps(Flagged(st, c), c);
    LawfulAgain(st, Flagged(st, c), c);
  }

  /** A cancellation adds at most itself to what is in hand and spawns at most itself. */
  lemma CancellationKeeps(st: State, c: CommandEnvelope)
    requires Inv(st) && NotStranded(st) && IsCancel(c) && c.sessionId in st.known && c.commandId !in Held(st)
    ensures var r := ScheduleCancellation(st, c);
      && Inv(r) && NotStranded(r) && SpawnsLawful(st, r) && c.sessionId in r.cancelled
      && Held(r) == Held(st) + (if TakesPlace(st, c) then {c.commandId} else {})
  {
    var waiting := OfSession(st.queued, c.sessionId);
    if c.sessionId in st.active || waiting != [] {
      InterruptKeeps(st, c);
      assert ScheduleCancellation(st, c) == SuppressAll(Interrupting(st, c), waiting);
    } else if c.sessionId in st.pending {
      FlaggedKeeps(st, c);
      assert Ids(waiting) == {};
      assert ScheduleCancellation(st, c) == Flagged(st, c);
    } else {
      OwnKeeps(st, c);
      assert ScheduleCancellation(st, c) == ScheduleInner(Flagged(st, c), c);
    }
  }

  predicate KeptFor(st: State, c: CommandEnvelope) {
    c.sessionId in st.pending && st.pending[c.sessionId] == c
  }

  /** A cancellation is in hand or kept for later afterwards exactly when none was kept before: a
      second one is dropped, and no completion will ever be sent for it. */
  lemma CancellationDroppedIff(st: State, c: CommandEnvelope)
    requires Inv(st) && NotStranded(st) && IsCancel(c) && c.sessionId in st.known
    requires c.commandId !in Held(st) && !KeptFor(st, c)
    ensures var r := ScheduleCancellation(st, c);
      c.commandId in Held(r) || KeptFor(r, c) <==> c.sessionId !in st.pending
  {
    var waiting := OfSession(st.queued, c.sessionId);
    CancellationKeeps(st, c);
    if c.sessionId in st.active || waiting != [] {
      assert ScheduleCancellation(st, c) == SuppressAll(Interrupting(st, c), waiting);
      SuppressAllPending(Interrupting(st, c), waiting);
    }
  }

  lemma {:induction false} SuppressAllPending(st: State, cs: seq<CommandEnvelope>)
    ensures SuppressAll(st, cs).pending == st.pending
    decreases |cs|
  {
    if cs != [] {
      SuppressAllPending(Suppress(st, cs[0]), cs[1..]);
    }
  }

  lemma LawfulAgain(st: State, flagged: State, c: CommandEnvelope)
    requires IsCancel(c) && flagged.spawned == st.spawned && c.sessionId !in st.pending
    ensures SpawnsLawful(st, ScheduleInner(flagged, c))
  {
  }

  /** Whether a cancellation runs as a command of its own. */
  predicate TakesPlace(st: State, c: CommandEnvelope) {
    c.sessionId !in st.active && OfSession(st.queued, c.sessionId) == [] && c.sessionId !in st.pending
  }

  /** Admitting a command puts it in hand; only a cancellation may instead wait for the work it
      interrupts, or be dropped because one already does. */
  lemma ScheduleKeeps(st: State, c: CommandEnvelope)
    requires Inv(st) && NotStranded(st) && c.commandId !in Held(st)
    ensures var r := Schedule(st, c);
      && Inv(r) && NotStranded(r) && SpawnsLawful(st, r)
      && Held(r) == Held(st) + (if IsCancel(c) && !TakesPlace(st, c) then {} else {c.commandId})
      && (IsCancel(c) ==> c.sessionId in r.cancelled)
  {
    var admitted := st.(known := st.known + {c.sessionId});
    FlagsKeep(st, st.known + {c.sessionId}, st.cancelled, st.ended);
    assert admitted == st.(known := st.known + {c.sessionId}, cancelled := st.cancelled, ended := st.ended);
    if IsCancel(c) {
      CancellationKeeps(admitted, c);
    } else if c.sessionId in st.cancelled {
      SuppressKeeps(admitted, c);
    } else {
      InnerKeeps(admitted, c);
    }
  }

  lemma RuntimeKeeps(st: State, c: CommandEnvelope)
    requires Inv(st) && NotStranded(st) && c.commandId !in Held(st)
    ensures var r := ScheduleRuntime(st, c);
      Inv(r) && NotStranded(r) && SpawnsLawful(st, r) && Held(r) == Held(st) + {c.commandId}
  {
    var admitted := st.(known := st.known + {c.sessionId});
    FlagsKeep(st, st.known + {c.sessionId}, st.cancelled, st.ended);
    assert admitted == st.(known := st.known + {c.sessionId}, cancelled := st.cancelled, ended := st.ended);
    InnerKeeps(admitted, c);
  }

  lemma ShutdownKeeps(st: State)
    requires Inv(st)
    ensures var r := st.(cancelled := st.cancelled + st.active.Keys); Inv(r) && Held(r) == Held(st)
  {
    FlagsKeep(st, st.known, st.cancelled + st.active.Keys, st.ended);
    assert st.(cancelled := st.cancelled + st.active.Keys)
        == st.(known := st.known, cancelled := st.cancelled + st.active.Keys, ended := st.ended);
  }

  lemma EndChannel(st: State, s: Name, terminal: bool)
    requires OnePlace(st) && ChannelExact(st) && s in st.running && s in st.active
    ensures ChannelExact(WorkerEnds(st, s, terminal))
  {
    var r := WorkerEnds(st, s, terminal);
    forall k | k in st.channel ensures k.commandId != st.active[s] {
      assert st.active[s] in ActiveIds(st.active);
      assert k.commandId !in st.suppressed && k.commandId == st.active[s] ==> SameCommand(st.active, k.sessionId, s);
    }
    AppendOnce(st.channel, Completion(s, st.active[s], terminal));
    forall k | k in r.channel && k !in st.channel ensures k == Completion(s, st.active[s], terminal) {
    }
    assert st.active[s] in ActiveIds(st.active) && st.active[s] !in st.suppressed;
  }

  lemma EndKeeps(st: State, s: Name, terminal: bool)
    requires Inv(st) && NotStranded(st)
    ensures var r := WorkerEnds(st, s, terminal);
      Inv(r) && NotStranded(r) && SpawnsLawful(st, r) && Held(r) == Held(st)
  {
    if s in st.running && s in st.active {
      EndChannel(st, s, terminal);
      assert |st.running - {s}| == |st.running| - 1;
      assert ActiveIds(WorkerEnds(st, s, terminal).active) == ActiveIds(st.active);
    }
  }

  lemma CleanupKeeps(st: State, s: Name)
    requires Inv(st) && NotStranded(st)
    ensures var r := Cleanup(st, s); Inv(r) && NotStranded(r) && Held(r) == Held(st) && r.spawned == st.spawned
  {
    var r := Cleanup(st, s);
    assert forall id | id in st.suppressed :: HasSuppressed(st, st.suppressed[id]);
  }

  /** Every completion in the channel is expected: the errors about an inactive session or another
      command are for completions that were never sent. */
  lemma CompletionsExpected(st: State, k: Completion)
    requires ChannelExact(st) && k in st.channel
    ensures Expects(st, k)
  {
  }

  function Popped(st: State): State
    requires st.channel != []
  {
    Retire(st.(channel := st.channel[1..]), st.channel[0])
  }

  lemma PoppedOnePlace(st: State)
    requires OnePlace(st) && st.channel != [] && ChannelExact(st)
    ensures OnePlace(Popped(st)) && Held(Popped(st)) == Held(st) - {st.channel[0].commandId}
    ensures st.channel[0].commandId in Held(st)
  {
    var k, r := st.channel[0], Popped(st);
    if k.commandId in st.suppressed {
      } else {
      assert st.active[k.sessionId] in ActiveIds(st.active);
      forall s | s in st.active && s != k.sessionId
        ensures st.active[s] != k.commandId && st.active[s] in ActiveIds(r.active)
      {
        assert st.active[s] == k.commandId ==> SameCommand(st.active, s, k.sessionId);
        assert s in r.active && r.active[s] == st.active[s];
      }
      assert ActiveIds(r.active) == ActiveIds(st.active) - {k.commandId};
      forall s, t | SameCommand(r.active, s, t) ensures s == t {
        assert SameCommand(st.active, s, t);
      }
    }
  }

  lemma StillOnItsWay(channel: seq<Completion>, id: Name)
    requires channel != [] && OnItsWay(channel, id) && id != channel[0].commandId
    ensures OnItsWay(channel[1..], id)
  {
    var k :| k in channel && k.commandId == id;
    var i :| 0 <= i < |channel| && channel[i] == k;
    assert channel[1..][i - 1] == k;
  }

  lemma PoppedChannel(st: State)
    requires OnePlace(st) && ChannelExact(st) && st.channel != []
    ensures ChannelExact(Popped(st))
  {
    var k, r := st.channel[0], Popped(st);
    forall i | 1 <= i < |st.channel| ensures st.channel[i].commandId != k.commandId && st.channel[i] in st.channel {
      assert !Twice(st.channel, 0, i);
    }
    forall i, j ensures !Twice(r.channel, i, j) {
      assert !Twice(st.channel, i + 1, j + 1);
    }
    forall j | j in r.channel ensures j in st.channel && j.commandId != k.commandId {
    }
    forall id | id in r.suppressed ensures OnItsWay(r.channel, id) {
      assert id != k.commandId;
      StillOnItsWay(st.channel, id);
    }
    forall s | s in r.active && s !in r.running ensures OnItsWay(r.channel, r.active[s]) {
      assert st.active[s] in ActiveIds(st.active);
      assert st.active[s] == k.commandId ==> SameCommand(st.active, s, k.sessionId) || k.commandId in st.suppressed;
      StillOnItsWay(st.channel, st.active[s]);
    }
  }

  lemma PoppedKeeps(st: State)
    requires Inv(st) && st.channel != []
    ensures Inv(Popped(st)) && Held(Popped(st)) == Held(st) - {st.channel[0].commandId}
    ensures st.channel[0].commandId in Held(st) && st.channel[0].sessionId in st.known
  {
    PoppedOnePlace(st);
    PoppedChannel(st);
    assert st.channel[0] in st.channel;
  }

  /** The state just before the drain that follows a completion. */
  function Cleared(st: State): State
    requires st.channel != []
  {
    var k, popped := st.channel[0], Popped(st);
    popped.(ended := if k.terminal then popped.ended + {k.sessionId} else popped.ended,
            pending := popped.pending - {k.sessionId})
  }

  lemma ClearedKeeps(st: State)
    requires Inv(st) && st.channel != []
    ensures Inv(Cleared(st)) && Held(Cleared(st)) == Held(st) - {st.channel[0].commandId}
  {
    var k, popped := st.channel[0], Popped(st);
    PoppedKeeps(st);
    var noted := popped.(ended := if k.terminal then popped.ended + {k.sessionId} else popped.ended);
    FlagsKeep(popped, popped.known, popped.cancelled, noted.ended);
    assert noted == popped.(known := popped.known, cancelled := popped.cancelled, ended := noted.ended);
    PendingKeeps(noted, noted.pending - {k.sessionId});
    assert Cleared(st) == noted.(pending := noted.pending - {k.sessionId});
  }

  lemma ReceiveIs(st: State)
    requires ChannelExact(st) && st.channel != []
    ensures Receive(st).Some?
    ensures var r := Receive(st).value.state;
      r == DrainQueue(Cleared(st)) || r == Cleanup(DrainQueue(Cleared(st)), st.channel[0].sessionId)
  {
    assert st.channel[0] in st.channel;
    CompletionsExpected(st, st.channel[0]);
  }

  /** The state after the next completion is handled. */
  ghost predicate Received(st: State, r: State)
    requires st.channel != []
  {
    && Inv(r) && NotStranded(r) && SpawnsLawful(st, r)
    && st.channel[0].commandId in Held(st) && Held(r) == Held(st) - {st.channel[0].commandId}
  }

  /** Receiving a completion takes exactly its command off the books, drains the queue, and can
      neither fail nor strand what still waits. */
  lemma ReceiveKeeps(st: State)
    requires Inv(st) && st.channel != []
    ensures Receive(st).Some? && Received(st, Receive(st).value.state)
  {
    PoppedKeeps(st);
    ClearedKeeps(st);
    ReceiveIs(st);
    DrainKeeps(Cleared(st));
    CleanupKeeps(DrainQueue(Cleared(st)), st.channel[0].sessionId);
  }
}
