/** The scheduler against the book of commands its caller has under way: everything in hand is in the
    book, and what the book holds is in hand unless it was dropped. */
module SchedulerBook {
  import opened Protocol
  import opened SchedulerState
  import opened SchedulerRuns
  import opened SchedulerQueue

  type Book = map<Name, CommandEnvelope>

  predicate InBook(book: Book, c: CommandEnvelope) {
    c.commandId in book && book[c.commandId] == c
  }

  ghost predicate Keyed(book: Book) {
    forall id | id in book :: book[id].commandId == id
  }

  predicate ActiveFits(st: State, book: Book, s: Name)
    requires s in st.active
  {
    && st.active[s] in book && book[st.active[s]].sessionId == s
    && (IsCancel(book[st.active[s]]) ==> s in st.cancelled)
  }

  /** Everything in hand, and every cancellation kept, is in the book under its session. */
  ghost predicate Booked(st: State, book: Book) {
    && Keyed(book)
    && (forall c | c in st.queued :: InBook(book, c))
    && (forall s | s in st.active :: ActiveFits(st, book, s))
    && (forall id | id in st.suppressed :: id in book && book[id].sessionId == st.suppressed[id])
    && (forall s | s in st.pending :: InBook(book, st.pending[s]) && st.pending[s].sessionId == s)
    && PendingIds(st.pending) !! Held(st)
  }

  function PendingIds(pending: map<Name, CommandEnvelope>): set<Name> {
    set s | s in pending :: pending[s].commandId
  }

  /** In hand or kept for later. */
  function InHand(st: State): set<Name> {
    Held(st) + PendingIds(st.pending)
  }

  ghost predicate Ready(st: State, book: Book) {
    Inv(st) && NotStranded(st) && Tidy(st) && Booked(st, book)
  }

  /** A command that is in the book and not in hand. */
  ghost predicate Fresh(st: State, book: Book, c: CommandEnvelope) {
    InBook(book, c) && c.commandId !in InHand(st)
  }

  lemma BookGrows(st: State, book: Book, more: Book)
    requires Booked(st, book) && Keyed(more) && forall id | id in book :: id in more && more[id] == book[id]
    ensures Booked(st, more)
  {
    forall s | s in st.active ensures ActiveFits(st, more, s) {
      assert ActiveFits(st, book, s);
    }
  }

  /** A command that is neither in hand nor kept may leave the book. */
  lemma BookForgets(st: State, book: Book, id: Name)
    requires Booked(st, book) && id !in InHand(st)
    ensures Booked(st, book - {id})
  {
    forall s | s in st.active ensures ActiveFits(st, book - {id}, s) {
      assert ActiveFits(st, book, s) && st.active[s] in ActiveIds(st.active);
    }
    forall c | c in st.queued ensures InBook(book - {id}, c) {
      assert c.commandId in Ids(st.queued);
    }
    forall s | s in st.pending ensures st.pending[s].commandId in PendingIds(st.pending) {
    }
  }

  /* ---- Single moves ---- */

  /** `next` has the queue, the active commands and the suppressed ones of `st`, and `c`. */
  ghost predicate Takes(st: State, next: State, c: CommandEnvelope) {
    && (forall x | x in next.queued :: x in st.queued || x == c)
    && (forall s | s in next.active ::
          (s in st.active && next.active[s] == st.active[s]) || (s == c.sessionId && next.active[s] == c.commandId))
    && (forall id | id in next.suppressed ::
          (id in st.suppressed && next.suppressed[id] == st.suppressed[id])
          || (id == c.commandId && next.suppressed[id] == c.sessionId))
    && st.cancelled <= next.cancelled
  }

  lemma TakesBooked(st: State, next: State, book: Book, c: CommandEnvelope)
    requires Booked(st, book) && InBook(book, c) && Takes(st, next, c) && next.pending == st.pending
    requires IsCancel(c) ==> c.sessionId in next.cancelled
    requires Held(next) <= Held(st) + {c.commandId} && c.commandId !in PendingIds(st.pending)
    ensures Booked(next, book)
  {
    forall s | s in next.active ensures ActiveFits(next, book, s) {
      assert s in st.active ==> ActiveFits(st, book, s);
    }
  }

  lemma InnerTakes(st: State, c: CommandEnvelope)
    ensures var r := ScheduleInner(st, c);
      Takes(st, r, c) && r.pending == st.pending && r.cancelled == st.cancelled
  {
  }

  lemma InnerBooked(st: State, c: CommandEnvelope, book: Book)
    requires Ready(st, book) && Fresh(st, book, c) && c.sessionId in st.known
    requires (IsCancel(c) <==> c.sessionId in st.cancelled) && c.sessionId !in st.pending
    requires Count(st, c.sessionId) <= if c.sessionId in st.active then 0 else 1
    ensures var r := ScheduleInner(st, c);
      && Ready(r, book) && InHand(r) == InHand(st) + {c.commandId}
      && r.cancelled == st.cancelled && r.pending == st.pending
  {
    var r := ScheduleInner(st, c);
    assert Inv(r) && NotStranded(r) && Held(r) == Held(st) + {c.commandId} by {
      InnerKeeps(st, c);
    }
    assert Tidy(r) by {
      InnerTidy(st, c);
    }
    InnerTakes(st, c);
    TakesBooked(st, r, book, c);
  }

  /** Work of a cancelled session is suppressed. */
  lemma BarredBooked(st: State, c: CommandEnvelope, book: Book)
    requires Ready(st, book) && Fresh(st, book, c) && c.sessionId in st.known && !IsCancel(c)
    ensures var r := Suppress(st, c);
      && Ready(r, book) && InHand(r) == InHand(st) + {c.commandId}
      && r.cancelled == st.cancelled && r.pending == st.pending
  {
    SuppressKeeps(st, c);
    SuppressTidy(st, c);
    TakesBooked(st, Suppress(st, c), book, c);
  }

  /** A step that leaves alone what is in hand and kept, and the flags of active sessions. */
  lemma SameHolding(st: State, r: State, book: Book)
    requires Booked(st, book) && r.queued == st.queued && r.active == st.active && r.suppressed == st.suppressed
    requires r.pending == st.pending && forall s | s in st.active && s in st.cancelled :: s in r.cancelled
    ensures Booked(r, book) && InHand(r) == InHand(st)
  {
    forall s | s in r.active ensures ActiveFits(r, book, s) {
      assert ActiveFits(st, book, s);
    }
  }

  lemma KnownBooked(st: State, s: Name, book: Book)
    requires Ready(st, book)
    ensures var r := st.(known := st.known + {s}); Ready(r, book) && InHand(r) == InHand(st)
  {
    var r := st.(known := st.known + {s});
    FlagsKeep(st, st.known + {s}, st.cancelled, st.ended);
    assert r == st.(known := st.known + {s}, cancelled := st.cancelled, ended := st.ended);
    assert forall t :: Count(r, t) == Count(st, t);
    SameHolding(st, r, book);
  }

  /* ---- Cancellation ---- */

  predicate Among(cs: seq<CommandEnvelope>, id: Name, s: Name) {
    exists x | x in cs :: x.commandId == id && x.sessionId == s
  }

  predicate Waiting(st: State, id: Name, s: Name) {
    Among(st.queued, id, s)
  }

  /** `next` has only what `st` had, its waiting commands perhaps started or suppressed by now. */
  ghost predicate Keeps(st: State, next: State) {
    && (forall x | x in next.queued :: x in st.queued)
    && (forall s | s in next.active ::
          (s in st.active && next.active[s] == st.active[s]) || Waiting(st, next.active[s], s))
    && (forall id | id in next.suppressed ::
          (id in st.suppressed && next.suppressed[id] == st.suppressed[id]) || Waiting(st, id, next.suppressed[id]))
    && st.cancelled <= next.cancelled
  }

  lemma WaitingInBook(st: State, book: Book, id: Name, s: Name)
    requires Booked(st, book) && Tidy(st) && Waiting(st, id, s)
    ensures id in book && book[id].sessionId == s && (IsCancel(book[id]) ==> s in st.cancelled)
  {
    var x :| x in st.queued && x.commandId == id && x.sessionId == s;
    assert InBook(book, x);
  }

  lemma KeepsBooked(st: State, next: State, book: Book)
    requires Booked(st, book) && Tidy(st) && Keeps(st, next) && PendingIds(next.pending) !! Held(next)
    requires forall s | s in next.pending :: InBook(book, next.pending[s]) && next.pending[s].sessionId == s
    ensures Booked(next, book)
  {
    forall s | s in next.active ensures ActiveFits(next, book, s) {
      if s in st.active && next.active[s] == st.active[s] {
        assert ActiveFits(st, book, s);
      } else {
        WaitingInBook(st, book, next.active[s], s);
      }
    }
    forall id | id in next.suppressed ensures id in book && book[id].sessionId == next.suppressed[id] {
      if !(id in st.suppressed && next.suppressed[id] == st.suppressed[id]) {
        WaitingInBook(st, book, id, next.suppressed[id]);
      }
    }
  }

  lemma {:induction false} SuppressAllContents(st: State, cs: seq<CommandEnvelope>)
    ensures var r := SuppressAll(st, cs);
      && r.active == st.active && r.queued == st.queued && r.pending == st.pending && r.cancelled == st.cancelled
      && forall id | id in r.suppressed ::
           (id in st.suppressed && r.suppressed[id] == st.suppressed[id])
           || Among(cs, id, r.suppressed[id])
    decreases |cs|
  {
    if cs != [] {
      SuppressAllContents(Suppress(st, cs[0]), cs[1..]);
      var r := SuppressAll(st, cs);
      forall id | id in r.suppressed && !(id in st.suppressed && r.suppressed[id] == st.suppressed[id])
        ensures Among(cs, id, r.suppressed[id])
      {
        if Among(cs[1..], id, r.suppressed[id]) {
          var x :| x in cs[1..] && x.commandId == id && x.sessionId == r.suppressed[id];
          assert x in cs;
        } else {
          assert cs[0] in cs && cs[0].commandId == id;
        }
      }
    }
  }

  lemma PendingMore(pending: map<Name, CommandEnvelope>, c: CommandEnvelope)
    requires c.sessionId !in pending
    ensures PendingIds(pending[c.sessionId := c]) == PendingIds(pending) + {c.commandId}
  {
    var more := pending[c.sessionId := c];
    forall s | s in pending ensures pending[s].commandId in PendingIds(more) {
      assert s in more && more[s] == pending[s];
    }
    assert more[c.sessionId] == c;
  }

  predicate Dropped(st: State, c: CommandEnvelope) {
    IsCancel(c) && c.sessionId in st.pending
  }

  lemma InterruptKeepsAll(st: State, c: CommandEnvelope)
    ensures var r := SuppressAll(Interrupting(st, c), OfSession(st.queued, c.sessionId));
      Keeps(st, r) && r.pending == (if c.sessionId in st.pending then st.pending else st.pending[c.sessionId := c])
  {
    var waiting := OfSession(st.queued, c.sessionId);
    SuppressAllContents(Interrupting(st, c), waiting);
    OfSessionContents(st.queued, c.sessionId);
    RemovedFrom(st.queued, c.sessionId);
    var r := SuppressAll(Interrupting(st, c), waiting);
    forall id | id in r.suppressed && !(id in st.suppressed && r.suppressed[id] == st.suppressed[id])
      ensures Waiting(st, id, r.suppressed[id])
    {
      var x :| x in waiting && x.commandId == id && x.sessionId == r.suppressed[id];
      assert x in st.queued;
    }
  }

  /** What an interrupting cancellation adds to those that are kept. */
  function KeptMore(st: State, c: CommandEnvelope): set<Name> {
    if c.sessionId in st.pending then {} else {c.commandId}
  }

  lemma KeptAfter(st: State, r: State, c: CommandEnvelope, book: Book)
    requires Booked(st, book) && Tidy(st) && Fresh(st, book, c) && Keeps(st, r) && Held(r) == Held(st)
    requires r.pending == if c.sessionId in st.pending then st.pending else st.pending[c.sessionId := c]
    requires PendingIds(r.pending) == PendingIds(st.pending) + KeptMore(st, c)
    ensures Booked(r, book) && InHand(r) == InHand(st) + KeptMore(st, c)
  {
    KeepsBooked(st, r, book);
  }

  lemma InterruptBooked(st: State, c: CommandEnvelope, book: Book)
    requires Ready(st, book) && Fresh(st, book, c) && c.sessionId in st.known && IsCancel(c)
    ensures var r := SuppressAll(Interrupting(st, c), OfSession(st.queued, c.sessionId));
      Booked(r, book) && InHand(r) == InHand(st) + KeptMore(st, c)
  {
    var r := SuppressAll(Interrupting(st, c), OfSession(st.queued, c.sessionId));
    assert Held(r) == Held(st) by {
      InterruptKeeps(st, c);
    }
    InterruptKeepsAll(st, c);
    if c.sessionId !in st.pending {
      PendingMore(st.pending, c);
    }
    KeptAfter(st, r, c, book);
  }

  lemma FlaggedBooked(st: State, c: CommandEnvelope, book: Book)
    requires Ready(st, book) && c.sessionId in st.known && OfSession(st.queued, c.sessionId) == []
    ensures Ready(Flagged(st, c), book) && InHand(Flagged(st, c)) == InHand(st)
  {
    var r := Flagged(st, c);
    assert Inv(r) && NotStranded(r) && Held(r) == Held(st) by {
      FlaggedKeeps(st, c);
      assert Ids(OfSession(st.queued, c.sessionId)) == {};
    }
    assert Tidy(r) by {
      FlaggedTidy(st, c);
    }
    assert Booked(r, book) by {
      RemovedFrom(st.queued, c.sessionId);
      KeepsBooked(st, r, book);
    }
  }

  /** With nothing of its session in hand, a cancellation runs as a command of its own. */
  lemma AloneBooked(st: State, c: CommandEnvelope, book: Book)
    requires Ready(st, book) && Fresh(st, book, c) && c.sessionId in st.known && IsCancel(c)
    requires c.sessionId !in st.active && OfSession(st.queued, c.sessionId) == [] && c.sessionId !in st.pending
    ensures var r := ScheduleInner(Flagged(st, c), c);
      Ready(r, book) && InHand(r) == InHand(st) + {c.commandId}
  {
    FlaggedBooked(st, c, book);
    assert Count(Flagged(st, c), c.sessionId) == 0 by {
      FlaggedTidy(st, c);
    }
    InnerBooked(Flagged(st, c), c, book);
  }

  lemma CancellationBooked(st: State, c: CommandEnvelope, book: Book)
    requires Ready(st, book) && Fresh(st, book, c) && c.sessionId in st.known && IsCancel(c)
    ensures var r := ScheduleCancellation(st, c);
      Ready(r, book) && InHand(r) == InHand(st) + (if Dropped(st, c) then {} else {c.commandId})
  {
    var waiting := OfSession(st.queued, c.sessionId);
    if c.sessionId in st.active || waiting != [] {
      var r := SuppressAll(Interrupting(st, c), waiting);
      assert ScheduleCancellation(st, c) == r;
      assert Inv(r) && NotStranded(r) by {
        InterruptKeeps(st, c);
      }
      assert Tidy(r) by {
        CancellationTidy(st, c);
      }
      InterruptBooked(st, c, book);
    } else if c.sessionId in st.pending {
      FlaggedBooked(st, c, book);
      assert ScheduleCancellation(st, c) == Flagged(st, c);
    } else {
      AloneBooked(st, c, book);
      assert ScheduleCancellation(st, c) == ScheduleInner(Flagged(st, c), c);
    }
  }

  /** The session has no work in hand. */
  ghost predicate Unworked(st: State, book: Book, s: Name) {
    && (forall c | c in st.queued && c.sessionId == s :: IsCancel(c))
    && (s in st.active ==> st.active[s] in book && IsCancel(book[st.active[s]]))
  }

  /** Admitting a command from the book keeps everything in order, and takes it in hand unless it is a
      cancellation while one of its session is kept. */
  lemma ScheduleBooked(st: State, c: CommandEnvelope, book: Book)
    requires Ready(st, book) && Fresh(st, book, c) && (!IsCancel(c) ==> Unworked(st, book, c.sessionId))
    ensures var r := Schedule(st, c);
      Ready(r, book) && InHand(r) == InHand(st) + (if Dropped(st, c) then {} else {c.commandId})
  {
    var admitted := st.(known := st.known + {c.sessionId});
    KnownBooked(st, c.sessionId, book);
    if IsCancel(c) {
      CancellationBooked(admitted, c, book);
    } else if c.sessionId in st.cancelled {
      BarredBooked(admitted, c, book);
    } else {
      IdleUnlessCancelled(st, c.sessionId, book);
      InnerBooked(admitted, c, book);
    }
  }

  /** A session that is not cancelled and has no work in hand has nothing in hand. */
  lemma IdleUnlessCancelled(st: State, s: Name, book: Book)
    requires Ready(st, book) && Unworked(st, book, s) && s !in st.cancelled
    ensures s !in st.active && Count(st, s) == 0 && s !in st.pending
  {
    assert s in st.active ==> ActiveFits(st, book, s);
    NoneQueued(st.queued, s);
    forall c | c in st.queued ensures c.sessionId != s {
      assert IsCancel(c) <==> c.sessionId in st.cancelled;
    }
  }

  /** A cancellation that was kept is scheduled as a command of its own. */
  lemma RuntimeBooked(st: State, c: CommandEnvelope, book: Book)
    requires Ready(st, book) && Fresh(st, book, c) && IsCancel(c)
    requires c.sessionId in st.cancelled && c.sessionId !in st.pending
    requires Count(st, c.sessionId) <= if c.sessionId in st.active then 0 else 1
    ensures var r := ScheduleRuntime(st, c); Ready(r, book) && InHand(r) == InHand(st) + {c.commandId}
  {
    KnownBooked(st, c.sessionId, book);
    InnerBooked(st.(known := st.known + {c.sessionId}), c, book);
  }

  /* ---- Completions ---- */

  lemma {:induction false} SpawnAllContents(st: State, cs: seq<CommandEnvelope>)
    requires |cs| <= st.free
    ensures var r := SpawnAll(st, cs);
      forall s | s in r.active ::
        (s in st.active && r.active[s] == st.active[s]) || Among(cs, r.active[s], s)
    decreases |cs|
  {
    if cs != [] {
      SpawnAllContents(Spawn(st, cs[0]), cs[1..]);
      var r := SpawnAll(st, cs);
      forall s | s in r.active && !(s in st.active && r.active[s] == st.active[s])
        ensures Among(cs, r.active[s], s)
      {
        if Among(cs[1..], r.active[s], s) {
          var x :| x in cs[1..] && x.commandId == r.active[s] && x.sessionId == s;
          assert x in cs;
        } else {
          assert cs[0] in cs && cs[0].commandId == r.active[s] && cs[0].sessionId == s;
        }
      }
    }
  }

  lemma DrainKeepsAll(st: State)
    ensures Keeps(st, DrainQueue(st)) && DrainQueue(st).pending == st.pending
  {
    var p := PassOf(st);
    var q := st.(queued := QueueAfter(p));
    var mid, r := SpawnAll(q, p.spawned), DrainQueue(st);
    DrainFrom(st.queued, st.active.Keys, st.free, st.cancelled);
    SpawnAllEffect(q, p.spawned);
    SpawnAllContents(q, p.spawned);
    SpawnAllFlags(q, p.spawned);
    SuppressAllContents(mid, p.suppressed);
    forall s | s in r.active && !(s in st.active && r.active[s] == st.active[s]) ensures Waiting(st, r.active[s], s) {
      var x :| x in p.spawned && x.commandId == r.active[s] && x.sessionId == s;
      assert x in st.queued;
    }
    forall id | id in r.suppressed && !(id in st.suppressed && r.suppressed[id] == st.suppressed[id])
      ensures Waiting(st, id, r.suppressed[id])
    {
      var x :| x in p.suppressed && x.commandId == id && x.sessionId == r.suppressed[id];
      assert x in st.queued;
    }
  }

  lemma DrainBooked(st: State, book: Book)
    requires Inv(st) && Tidy(st) && Booked(st, book)
    ensures var r := DrainQueue(st);
      Ready(r, book) && InHand(r) == InHand(st) && r.pending == st.pending && r.cancelled == st.cancelled
  {
    var r := DrainQueue(st);
    assert Inv(r) && NotStranded(r) && Held(r) == Held(st) && r.cancelled == st.cancelled by {
      DrainKeeps(st);
    }
    assert Tidy(r) by {
      DrainTidy(st);
    }
    DrainKeepsAll(st);
    KeepsBooked(st, r, book);
  }

  lemma CleanupBooked(st: State, s: Name, book: Book)
    requires Ready(st, book)
    ensures var r := Cleanup(st, s); Ready(r, book) && InHand(r) == InHand(st)
  {
    var r := Cleanup(st, s);
    if r != st {
      CleanupKeeps(st, s);
      CleanupTidy(st, s);
      SameHolding(st, r, book);
    }
  }

  lemma EndBooked(st: State, s: Name, terminal: bool, book: Book)
    requires Ready(st, book)
    ensures var r := WorkerEnds(st, s, terminal); Ready(r, book) && InHand(r) == InHand(st)
  {
    var r := WorkerEnds(st, s, terminal);
    if r != st {
      EndKeeps(st, s, terminal);
      EndTidy(st, s, terminal);
      SameHolding(st, r, book);
    }
  }

  lemma PendingLess(pending: map<Name, CommandEnvelope>, s: Name)
    requires forall t, u | t in pending && u in pending && pending[t].commandId == pending[u].commandId :: t == u
    ensures PendingIds(pending - {s}) == PendingIds(pending) - if s in pending then {pending[s].commandId} else {}
  {
    forall t | t in pending && t != s ensures pending[t].commandId in PendingIds(pending - {s}) {
      assert t in pending - {s} && (pending - {s})[t] == pending[t];
    }
  }

  lemma PendingDistinct(st: State, book: Book)
    requires Booked(st, book)
    ensures forall t, u | t in st.pending && u in st.pending && st.pending[t].commandId == st.pending[u].commandId ::
      t == u
  {
  }

  /** The cancellation that was kept for the session of a completion, if any. */
  function KeptIds(st: State, s: Name): set<Name> {
    if s in st.pending then {st.pending[s].commandId} else {}
  }

  lemma ClearedFits(st: State, book: Book)
    requires Booked(st, book) && st.channel != []
    ensures forall t | t in Cleared(st).active :: ActiveFits(Cleared(st), book, t)
  {
    forall t | t in Cleared(st).active ensures ActiveFits(Cleared(st), book, t) {
      assert ActiveFits(st, book, t);
    }
  }

  lemma ClearedBooked(st: State, book: Book)
    requires Ready(st, book) && st.channel != []
    ensures var r, k := Cleared(st), st.channel[0];
      && Inv(r) && Tidy(r) && Booked(r, book) && k.commandId in Held(st)
      && InHand(r) == InHand(st) - {k.commandId} - KeptIds(st, k.sessionId)
  {
    var r, k := Cleared(st), st.channel[0];
    assert Inv(r) && Held(r) == Held(st) - {k.commandId} by {
      ClearedKeeps(st);
    }
    assert k.commandId in Held(st) by {
      PoppedKeeps(st);
    }
    assert Tidy(r) by {
      ClearedTidy(st);
    }
    assert PendingIds(r.pending) == PendingIds(st.pending) - KeptIds(st, k.sessionId) by {
      PendingDistinct(st, book);
      PendingLess(st.pending, k.sessionId);
    }
    ClearedFits(st, book);
  }

  /** The next completion is for a command of the book, under its session. */
  lemma CompletionInBook(st: State, book: Book)
    requires Inv(st) && Booked(st, book) && st.channel != []
    ensures var k := st.channel[0]; k.commandId in book && book[k.commandId].sessionId == k.sessionId
  {
    var k := st.channel[0];
    assert k in st.channel;
    if k.commandId !in st.suppressed {
      assert ActiveFits(st, book, k.sessionId);
    }
  }

  function FollowupIds(f: Option<Followup>): set<Name> {
    if f.Some? then {f.value.command.commandId} else {}
  }

  lemma FollowupIs(st: State)
    requires st.channel != [] && Receive(st).Some?
    ensures var s, f := st.channel[0].sessionId, Receive(st).value.followup;
      FollowupIds(f) == KeptIds(st, s) && (f.Some? ==> s in st.pending && f.value.command == st.pending[s])
  {
  }

  /** Handling a completion takes its command, and the cancellation it sets free, off the books. */
  lemma ReceiveBooked(st: State, book: Book)
    requires Ready(st, book) && st.channel != []
    ensures Receive(st).Some?
    ensures var r := Receive(st).value.state;
      Ready(r, book) && InHand(r) == InHand(st) - {st.channel[0].commandId} - KeptIds(st, st.channel[0].sessionId)
  {
    assert Receive(st).Some? by {
      ReceiveIs(st);
    }
    var r, drained := Receive(st).value.state, DrainQueue(Cleared(st));
    assert r == drained || r == Cleanup(drained, st.channel[0].sessionId) by {
      ReceiveIs(st);
    }
    ClearedBooked(st, book);
    DrainBooked(Cleared(st), book);
    CleanupBooked(drained, st.channel[0].sessionId, book);
  }
}
