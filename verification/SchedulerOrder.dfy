/** The order of a session's commands across a pass over the queue: what breaks it, exactly. */
module SchedulerOrder {
  import opened Protocol
  import opened SchedulerState
  import opened SchedulerRuns
  import opened SchedulerHistory

  /* ---- How far a pass gets ---- */

  /** Sessions that commands of `q` would newly occupy. */
  function Newcomers(q: seq<CommandEnvelope>, active: set<Name>, cancelled: set<Name>): set<Name> {
    set c | c in q && !Barred(c, cancelled) && c.sessionId !in active :: c.sessionId
  }

  /** The command at `k` may run, nothing of its session is active or was queued before it, and the
      sessions before it take all the permits. */
  predicate Starved(q: seq<CommandEnvelope>, k: nat, active: set<Name>, free: nat, cancelled: set<Name>) {
    && k < |q| && !Barred(q[k], cancelled)
    && q[k].sessionId !in active + Newcomers(q[..k], active, cancelled)
    && |Newcomers(q[..k], active, cancelled)| >= free
  }

  /** A pass stops at the first starved command, or at the end of the queue. */
  ghost predicate StopsAt(q: seq<CommandEnvelope>, k: nat, active: set<Name>, free: nat, cancelled: set<Name>) {
    && k <= |q| && (k == |q| || Starved(q, k, active, free, cancelled))
    && forall i: nat | i < k :: !Starved(q, i, active, free, cancelled)
  }

  /** The command at `i` waits for work of its own session. */
  predicate Waits(q: seq<CommandEnvelope>, i: nat, active: set<Name>, cancelled: set<Name>) {
    && i < |q| && !Barred(q[i], cancelled)
    && q[i].sessionId in active + Newcomers(q[..i], active, cancelled)
  }

  lemma NewcomersHead(q: seq<CommandEnvelope>, k: nat, active: set<Name>, cancelled: set<Name>)
    requires k < |q|
    ensures q[..k + 1] == [q[0]] + q[1..][..k]
    ensures Barred(q[0], cancelled) || q[0].sessionId in active ==>
      Newcomers(q[..k + 1], active, cancelled) == Newcomers(q[1..][..k], active, cancelled)
    ensures !Barred(q[0], cancelled) && q[0].sessionId !in active ==>
      var s := q[0].sessionId;
      && Newcomers(q[..k + 1], active, cancelled) == {s} + Newcomers(q[1..][..k], active + {s}, cancelled)
      && |Newcomers(q[..k + 1], active, cancelled)| == 1 + |Newcomers(q[1..][..k], active + {s}, cancelled)|
  {
    var h, t := q[..k + 1], q[1..][..k];
    assert h == [q[0]] + t;
    if !Barred(q[0], cancelled) && q[0].sessionId !in active {
      var s := q[0].sessionId;
      assert h[0] in h;
      assert Newcomers(h, active, cancelled) == {s} + Newcomers(t, active + {s}, cancelled);
      assert s !in Newcomers(t, active + {s}, cancelled);
    }
  }

  /** The sets and permits with which a pass goes on after its first command. */
  lemma Onward(q: seq<CommandEnvelope>, active: set<Name>, free: nat, cancelled: set<Name>, k: nat)
    requires q != [] && (free > 0 || Barred(q[0], cancelled) || q[0].sessionId in active)
    ensures var starts := !Barred(q[0], cancelled) && q[0].sessionId !in active;
      var on, left := if starts then active + {q[0].sessionId} else active, if starts then free - 1 else free;
      && (Starved(q, k + 1, active, free, cancelled) <==> Starved(q[1..], k, on, left, cancelled))
      && (Waits(q, k + 1, active, cancelled) <==> Waits(q[1..], k, on, cancelled))
  {
    if k + 1 < |q| {
      NewcomersHead(q, k, active, cancelled);
    }
  }

  lemma FirstRuns(q: seq<CommandEnvelope>, active: set<Name>, free: nat, cancelled: set<Name>)
    requires q != []
    ensures Newcomers(q[..0], active, cancelled) == {}
    ensures Starved(q, 0, active, free, cancelled)
       <==> !Barred(q[0], cancelled) && q[0].sessionId !in active && free == 0
    ensures Waits(q, 0, active, cancelled) <==> !Barred(q[0], cancelled) && q[0].sessionId in active
  {
  }

  predicate WaitsBefore(q: seq<CommandEnvelope>, k: nat, s: Name, active: set<Name>, cancelled: set<Name>) {
    exists i: nat | i < k :: Waits(q, i, active, cancelled) && q[i].sessionId == s
  }

  /** `t` is `q` without its first command, seen with the sets and permits a pass goes on with. */
  ghost predicate Shifted(q: seq<CommandEnvelope>, t: seq<CommandEnvelope>, active: set<Name>, free: nat,
                          cancelled: set<Name>, on: set<Name>, left: nat) {
    && |q| == |t| + 1 && (forall i: nat | i < |t| :: t[i] == q[i + 1])
    && (forall i: nat :: Starved(q, i + 1, active, free, cancelled) <==> Starved(t, i, on, left, cancelled))
    && (forall i: nat :: Waits(q, i + 1, active, cancelled) <==> Waits(t, i, on, cancelled))
  }

  /** The first command of a pass that goes on. */
  predicate GoesOn(q: seq<CommandEnvelope>, active: set<Name>, free: nat, cancelled: set<Name>, on: set<Name>,
                   left: nat) {
    && q != []
    && if Barred(q[0], cancelled) || q[0].sessionId in active then on == active && left == free
       else free > 0 && on == active + {q[0].sessionId} && left == free - 1
  }

  lemma TailShifted(q: seq<CommandEnvelope>, active: set<Name>, free: nat, cancelled: set<Name>, on: set<Name>,
                    left: nat)
    requires GoesOn(q, active, free, cancelled, on, left)
    ensures Shifted(q, q[1..], active, free, cancelled, on, left)
  {
    forall i: nat
      ensures Starved(q, i + 1, active, free, cancelled) <==> Starved(q[1..], i, on, left, cancelled)
      ensures Waits(q, i + 1, active, cancelled) <==> Waits(q[1..], i, on, cancelled)
    {
      Onward(q, active, free, cancelled, i);
    }
  }

  /** One command more at the front of a queue. */
  lemma OnwardStops(q: seq<CommandEnvelope>, t: seq<CommandEnvelope>, active: set<Name>, free: nat,
                    cancelled: set<Name>, on: set<Name>, left: nat, k: nat)
    requires Shifted(q, t, active, free, cancelled, on, left) && !Starved(q, 0, active, free, cancelled)
    requires StopsAt(t, k, on, left, cancelled)
    ensures StopsAt(q, k + 1, active, free, cancelled)
  {
    assert Starved(q, k + 1, active, free, cancelled) <==> Starved(t, k, on, left, cancelled);
    forall i: nat | i < k + 1 ensures !Starved(q, i, active, free, cancelled) {
      if i > 0 {
        assert !Starved(t, i - 1, on, left, cancelled);
      }
    }
  }

  lemma OnwardWaits(q: seq<CommandEnvelope>, t: seq<CommandEnvelope>, active: set<Name>, free: nat,
                    cancelled: set<Name>, on: set<Name>, left: nat, k: nat, s: Name)
    requires Shifted(q, t, active, free, cancelled, on, left)
    ensures WaitsBefore(q, k + 1, s, active, cancelled)
       <==> WaitsBefore(t, k, s, on, cancelled) || (Waits(q, 0, active, cancelled) && q[0].sessionId == s)
  {
    if WaitsBefore(q, k + 1, s, active, cancelled) {
      var i: nat :| i < k + 1 && Waits(q, i, active, cancelled) && q[i].sessionId == s;
      if i > 0 {
        assert Waits(t, i - 1, on, cancelled) && t[i - 1] == q[i];
      }
    }
    if WaitsBefore(t, k, s, on, cancelled) {
      var i: nat :| i < k && Waits(t, i, on, cancelled) && t[i].sessionId == s;
      assert Waits(q, i + 1, active, cancelled) && q[i + 1].sessionId == s;
    }
  }

  /** `p` stops at `k`, and sends to the back what waits before it. */
  ghost predicate Parts(q: seq<CommandEnvelope>, p: Pass, k: nat, s: Name,
                        active: set<Name>, free: nat, cancelled: set<Name>) {
    && StopsAt(q, k, active, free, cancelled) && p.rest == q[k..]
    && (s in Sessions(p.requeued) <==> WaitsBefore(q, k, s, active, cancelled))
  }

  lemma SentBack(c: CommandEnvelope, waits: bool, back: seq<CommandEnvelope>, s: Name)
    ensures s in Sessions((if waits then [c] else []) + back) <==> s in Sessions(back) || (waits && c.sessionId == s)
  {
    ConcatIds(if waits then [c] else [], back);
    assert Sessions([c]) == {c.sessionId};
  }

  lemma PartsStep(q: seq<CommandEnvelope>, t: seq<CommandEnvelope>, r: Pass, p: Pass, k: nat, s: Name,
                  active: set<Name>, free: nat, cancelled: set<Name>, on: set<Name>, left: nat)
    requires GoesOn(q, active, free, cancelled, on, left) && t == q[1..]
    requires Parts(t, r, k, s, on, left, cancelled) && p.rest == r.rest
    requires p.requeued ==
      (if !Barred(q[0], cancelled) && q[0].sessionId in active then [q[0]] else []) + r.requeued
    ensures Parts(q, p, k + 1, s, active, free, cancelled)
  {
    FirstRuns(q, active, free, cancelled);
    TailShifted(q, active, free, cancelled, on, left);
    OnwardStops(q, t, active, free, cancelled, on, left, k);
    OnwardWaits(q, t, active, free, cancelled, on, left, k, s);
    SentBack(q[0], Waits(q, 0, active, cancelled), r.requeued, s);
  }

  lemma PartsStop(q: seq<CommandEnvelope>, s: Name, active: set<Name>, free: nat, cancelled: set<Name>)
    requires q == [] || (!Barred(q[0], cancelled) && q[0].sessionId !in active && free == 0)
    ensures Parts(q, Pass([], q, [], []), 0, s, active, free, cancelled)
  {
    if q != [] {
      FirstRuns(q, active, free, cancelled);
    }
  }

  lemma DrainOn(q: seq<CommandEnvelope>, active: set<Name>, free: nat, cancelled: set<Name>, on: set<Name>, left: nat)
    requires GoesOn(q, active, free, cancelled, on, left)
    ensures var p, r := Drain(q, active, free, cancelled), Drain(q[1..], on, left, cancelled);
      && p.rest == r.rest
      && p.requeued == (if !Barred(q[0], cancelled) && q[0].sessionId in active then [q[0]] else []) + r.requeued
  {
    var r := Drain(q[1..], on, left, cancelled);
    assert [] + r.requeued == r.requeued;
  }

  lemma PartsOn(q: seq<CommandEnvelope>, p: Pass, r: Pass, k: nat, s: Name,
                active: set<Name>, free: nat, cancelled: set<Name>, on: set<Name>, left: nat)
    requires GoesOn(q, active, free, cancelled, on, left)
    requires p == Drain(q, active, free, cancelled) && r == Drain(q[1..], on, left, cancelled)
    requires Parts(q[1..], r, k, s, on, left, cancelled)
    ensures Parts(q, p, k + 1, s, active, free, cancelled)
  {
    DrainOn(q, active, free, cancelled, on, left);
    PartsStep(q, q[1..], r, p, k, s, active, free, cancelled, on, left);
  }

  ghost predicate PartsFor(q: seq<CommandEnvelope>, p: Pass, s: Name, active: set<Name>, free: nat,
                           cancelled: set<Name>) {
    exists k: nat :: Parts(q, p, k, s, active, free, cancelled)
  }

  /** A pass leaves unseen what starts at the first starved command, and sends to the back what
      waits before it. */
  lemma {:induction false} PassParts(
    q: seq<CommandEnvelope>, p: Pass, active: set<Name>, free: nat, cancelled: set<Name>, s: Name)
    requires p == Drain(q, active, free, cancelled)
    ensures PartsFor(q, p, s, active, free, cancelled)
    decreases |q|, 1
  {
    if q == [] || (!Barred(q[0], cancelled) && q[0].sessionId !in active && free == 0) {
      PartsStop(q, s, active, free, cancelled);
    } else if Barred(q[0], cancelled) || q[0].sessionId in active {
      PassOn(q, p, active, free, cancelled, s, active, free);
    } else {
      PassOn(q, p, active, free, cancelled, s, active + {q[0].sessionId}, free - 1);
    }
  }

  lemma PassOn(q: seq<CommandEnvelope>, p: Pass, active: set<Name>, free: nat, cancelled: set<Name>, s: Name,
               on: set<Name>, left: nat)
    requires p == Drain(q, active, free, cancelled) && GoesOn(q, active, free, cancelled, on, left)
    ensures PartsFor(q, p, s, active, free, cancelled)
    decreases |q|, 0
  {
    var r := Drain(q[1..], on, left, cancelled);
    PassParts(q[1..], r, on, left, cancelled, s);
    var n: nat :| Parts(q[1..], r, n, s, on, left, cancelled);
    PartsOn(q, p, r, n, s, active, free, cancelled, on, left);
  }

  lemma StopUnique(q: seq<CommandEnvelope>, active: set<Name>, free: nat, cancelled: set<Name>, k: nat, n: nat)
    requires StopsAt(q, k, active, free, cancelled) && StopsAt(q, n, active, free, cancelled)
    ensures k == n
  {
    assert k < n ==> !Starved(q, k, active, free, cancelled);
    assert n < k ==> !Starved(q, n, active, free, cancelled);
  }

  /* ---- What is left, in the order it was queued ---- */

  function Without(q: seq<CommandEnvelope>, gone: set<Name>): seq<CommandEnvelope> {
    if q == [] then [] else (if q[0].commandId in gone then [] else [q[0]]) + Without(q[1..], gone)
  }

  function Gone(p: Pass): set<Name> {
    Ids(p.spawned) + Ids(p.suppressed)
  }

  /** What a pass leaves queued, in the order it was queued before. */
  function InOrder(p: Pass): seq<CommandEnvelope> {
    p.requeued + p.rest
  }

  lemma {:induction false} WithoutMore(q: seq<CommandEnvelope>, gone: set<Name>, more: set<Name>)
    requires Ids(q) !! more
    ensures Without(q, gone + more) == Without(q, gone)
  {
    if q != [] {
      assert q == [q[0]] + q[1..];
      ConcatIds([q[0]], q[1..]);
      assert q[0].commandId in Ids(q);
      WithoutMore(q[1..], gone, more);
    }
  }

  lemma {:induction false} WithoutNone(q: seq<CommandEnvelope>)
    ensures Without(q, {}) == q
  {
    if q != [] {
      WithoutNone(q[1..]);
    }
  }

  lemma WithoutHead(c: CommandEnvelope, t: seq<CommandEnvelope>, gone: set<Name>)
    ensures Without([c] + t, gone) == (if c.commandId in gone then [] else [c]) + Without(t, gone)
  {
    assert ([c] + t)[1..] == t;
  }

  /** `p` is a pass over `q`: in order, what it leaves is the queue without what is gone. */
  ghost predicate Leaves(q: seq<CommandEnvelope>, p: Pass) {
    InOrder(p) == Without(q, Gone(p)) && Gone(p) <= Ids(q)
  }

  lemma LeftGone(c: CommandEnvelope, t: seq<CommandEnvelope>, r: Pass, p: Pass)
    requires c.commandId !in Ids(t) && Leaves(t, r)
    requires p == r.(suppressed := [c] + r.suppressed) || p == r.(spawned := [c] + r.spawned)
    ensures Leaves([c] + t, p)
  {
    assert Ids([c]) == {c.commandId};
    ConcatIds([c], r.suppressed);
    ConcatIds([c], r.spawned);
    ConcatIds([c], t);
    assert Gone(p) == Gone(r) + {c.commandId};
    WithoutMore(t, Gone(r), {c.commandId});
    WithoutHead(c, t, Gone(p));
  }

  lemma LeftBehind(c: CommandEnvelope, t: seq<CommandEnvelope>, r: Pass, p: Pass)
    requires c.commandId !in Ids(t) && Leaves(t, r) && p == r.(requeued := [c] + r.requeued)
    ensures Leaves([c] + t, p)
  {
    ConcatIds([c], t);
    assert Gone(p) == Gone(r) && InOrder(p) == [c] + InOrder(r);
    WithoutHead(c, t, Gone(p));
  }

  /** Put back in order, what a pass leaves is the queue without what it started or suppressed. */
  lemma {:induction false} InOrderIsLeft(q: seq<CommandEnvelope>, active: set<Name>, free: nat, cancelled: set<Name>)
    requires DistinctIds(q)
    ensures Leaves(q, Drain(q, active, free, cancelled))
  {
    var p := Drain(q, active, free, cancelled);
    if q == [] {
      assert Gone(p) == {};
    } else {
      var c, t := q[0], q[1..];
      HeadIds(q);
      if Barred(c, cancelled) {
        InOrderIsLeft(t, active, free, cancelled);
        LeftGone(c, t, Drain(t, active, free, cancelled), p);
      } else if c.sessionId in active {
        InOrderIsLeft(t, active, free, cancelled);
        LeftBehind(c, t, Drain(t, active, free, cancelled), p);
      } else if free > 0 {
        InOrderIsLeft(t, active + {c.sessionId}, free - 1, cancelled);
        LeftGone(c, t, Drain(t, active + {c.sessionId}, free - 1, cancelled), p);
      } else {
        assert Gone(p) == {} && InOrder(p) == q;
        WithoutNone(q);
      }
    }
  }

  /* ---- Order within a session ---- */

  /** Within every session, what a pass leaves queued keeps the order of the queue. */
  ghost predicate KeepsOrder(q: seq<CommandEnvelope>, p: Pass) {
    forall s :: OfSession(QueueAfter(p), s) == OfSession(Without(q, Gone(p)), s)
  }

  predicate Turned(q: seq<CommandEnvelope>, i: nat, k: nat, j: nat, active: set<Name>, cancelled: set<Name>) {
    i < k <= j < |q| && Waits(q, i, active, cancelled) && q[i].sessionId == q[j].sessionId
  }

  /** A session has one command waiting before the stop and another at the stop or behind it. */
  ghost predicate TurnsRound(q: seq<CommandEnvelope>, active: set<Name>, free: nat, cancelled: set<Name>) {
    exists i: nat, k: nat, j: nat :: StopsAt(q, k, active, free, cancelled) && Turned(q, i, k, j, active, cancelled)
  }

  /** A pass keeps the order within every session exactly when no session has a command that waits
      for its session before the first starved one and another from there on. */
  lemma OrderKeptIff(q: seq<CommandEnvelope>, active: set<Name>, free: nat, cancelled: set<Name>)
    requires DistinctIds(q)
    ensures KeepsOrder(q, Drain(q, active, free, cancelled)) <==> !TurnsRound(q, active, free, cancelled)
  {
    var p := Drain(q, active, free, cancelled);
    InOrderIsLeft(q, active, free, cancelled);
    DrainShares(q, active, free, cancelled);
    PartsIds(q, p);
    forall s ensures PartsFor(q, p, s, active, free, cancelled) {
      PassParts(q, p, active, free, cancelled, s);
    }
    OrderByParts(q, p, active, free, cancelled);
  }

  lemma OrderByParts(q: seq<CommandEnvelope>, p: Pass, active: set<Name>, free: nat, cancelled: set<Name>)
    requires Leaves(q, p) && Ids(p.requeued) !! Ids(p.rest)
    requires forall s :: PartsFor(q, p, s, active, free, cancelled)
    ensures KeepsOrder(q, p) <==> !TurnsRound(q, active, free, cancelled)
  {
    forall s ensures OfSession(QueueAfter(p), s) == OfSession(InOrder(p), s) <==> !BothParts(p, s) {
      OfSessionConcat(p.rest, p.requeued, s);
      OfSessionConcat(p.requeued, p.rest, s);
      OfSessionContents(p.requeued, s);
      OfSessionContents(p.rest, s);
      Rotation(OfSession(p.requeued, s), OfSession(p.rest, s), p, s);
    }
    if TurnsRound(q, active, free, cancelled) {
      var s := TurnedBack(q, p, active, free, cancelled);
    } else {
      forall s ensures !BothParts(p, s) {
        if BothParts(p, s) {
          TurnedThere(q, p, active, free, cancelled, s);
        }
      }
    }
  }

  lemma PartsIds(q: seq<CommandEnvelope>, p: Pass)
    requires Rearranges(q, Flat(p))
    ensures Ids(p.requeued) !! Ids(p.rest)
  {
    PartsApart(q, p);
    ConcatDistinct(p.rest, p.requeued);
  }

  predicate BothParts(p: Pass, s: Name) {
    s in Sessions(p.requeued) && s in Sessions(p.rest)
  }

  lemma TurnedThere(q: seq<CommandEnvelope>, p: Pass, active: set<Name>, free: nat, cancelled: set<Name>, s: Name)
    requires PartsFor(q, p, s, active, free, cancelled) && BothParts(p, s)
    ensures TurnsRound(q, active, free, cancelled)
  {
    var k: nat :| Parts(q, p, k, s, active, free, cancelled);
    var i: nat :| i < k && Waits(q, i, active, cancelled) && q[i].sessionId == s;
    var c :| c in p.rest && c.sessionId == s;
    var j :| 0 <= j < |p.rest| && p.rest[j] == c;
    assert q[k + j] == c && Turned(q, i, k, k + j, active, cancelled);
  }

  lemma TurnedBack(q: seq<CommandEnvelope>, p: Pass, active: set<Name>, free: nat, cancelled: set<Name>)
    returns (s: Name)
    requires TurnsRound(q, active, free, cancelled)
    requires forall t :: PartsFor(q, p, t, active, free, cancelled)
    ensures BothParts(p, s)
  {
    var i: nat, k: nat, j: nat :| StopsAt(q, k, active, free, cancelled) && Turned(q, i, k, j, active, cancelled);
    s := q[i].sessionId;
    assert PartsFor(q, p, s, active, free, cancelled);
    var n: nat :| Parts(q, p, n, s, active, free, cancelled);
    StopUnique(q, active, free, cancelled, k, n);
    assert p.rest[j - k] == q[j] && p.rest[j - k] in p.rest;
    assert WaitsBefore(q, k, s, active, cancelled);
  }

  lemma Rotation(a: seq<CommandEnvelope>, b: seq<CommandEnvelope>, p: Pass, s: Name)
    requires Ids(p.requeued) !! Ids(p.rest)
    requires forall c :: c in a <==> c in p.requeued && c.sessionId == s
    requires forall c :: c in b <==> c in p.rest && c.sessionId == s
    ensures b + a == a + b <==> s !in Sessions(p.requeued) || s !in Sessions(p.rest)
  {
    assert a != [] ==> a[0] in a;
    assert b != [] ==> b[0] in b;
    assert s in Sessions(p.requeued) <==> a != [];
    assert s in Sessions(p.rest) <==> b != [];
    if a != [] && b != [] {
      assert a[0].commandId in Ids(p.requeued) && b[0].commandId in Ids(p.rest);
      assert (b + a)[0] == b[0] && (a + b)[0] == a[0];
    } else {
      assert b + a == a + b;
    }
  }

  /** With at most one queued command for an active session and two for another, a pass keeps the
      order. */
  lemma FewKeepOrder(q: seq<CommandEnvelope>, active: set<Name>, free: nat, cancelled: set<Name>)
    requires DistinctIds(q) && forall s :: |OfSession(q, s)| <= if s in active then 1 else 2
    ensures KeepsOrder(q, Drain(q, active, free, cancelled))
  {
    if TurnsRound(q, active, free, cancelled) {
      var i: nat, k: nat, j: nat :| StopsAt(q, k, active, free, cancelled) && Turned(q, i, k, j, active, cancelled);
      var s := q[i].sessionId;
      TwoOfSession(q, i, j, s);
      if s !in active {
        var c :| c in q[..i] && !Barred(c, cancelled) && c.sessionId !in active && c.sessionId == s;
        var h :| 0 <= h < i && q[h] == c;
        ThreeOfSession(q, h, i, j, s);
      }
      assert false;
    }
    OrderKeptIff(q, active, free, cancelled);
  }

  lemma OneOfSession(q: seq<CommandEnvelope>, i: nat, s: Name)
    requires i < |q| && q[i].sessionId == s
    ensures |OfSession(q, s)| >= 1
  {
    OfSessionContents(q, s);
    assert q[i] in OfSession(q, s);
  }

  lemma TwoOfSession(q: seq<CommandEnvelope>, i: nat, j: nat, s: Name)
    requires i < j < |q| && q[i].sessionId == s && q[j].sessionId == s
    ensures |OfSession(q, s)| >= 2
  {
    assert q == q[..j] + q[j..];
    OfSessionConcat(q[..j], q[j..], s);
    OneOfSession(q[..j], i, s);
    OneOfSession(q[j..], 0, s);
  }

  lemma ThreeOfSession(q: seq<CommandEnvelope>, h: nat, i: nat, j: nat, s: Name)
    requires h < i < j < |q| && q[h].sessionId == s && q[i].sessionId == s && q[j].sessionId == s
    ensures |OfSession(q, s)| >= 3
  {
    assert q == q[..j] + q[j..];
    OfSessionConcat(q[..j], q[j..], s);
    TwoOfSession(q[..j], h, i, s);
    OneOfSession(q[j..], 0, s);
  }

  /* ---- A history in which the order breaks ---- */

  lemma RunNext(actions: seq<Action>, a: Action)
    ensures Run(actions + [a]) == Step(Run(actions), a)
  {
    assert (actions + [a])[..|actions|] == actions;
  }

  /** Nothing is cancelled; the workers of the active sessions but `idle` hold their permits. */
  ghost predicate At(t: Trace, active: map<Name, Name>, idle: set<Name>, free: nat, queued: seq<CommandEnvelope>,
                     channel: seq<Completion>, admitted: set<Name>) {
    && t.state.active == active && t.state.running == active.Keys - idle && t.state.free == free
    && t.state.queued == queued && t.state.channel == channel && t.admitted == admitted
    && t.state.cancelled == {} && t.state.ended == {} && t.state.pending == map[] && t.state.suppressed == map[]
  }

  /** Work that finds its session idle and a permit free is started. */
  lemma AdmitStarts(actions: seq<Action>, c: CommandEnvelope, active: map<Name, Name>, idle: set<Name>, free: nat,
                    queued: seq<CommandEnvelope>, channel: seq<Completion>, admitted: set<Name>)
    requires At(Run(actions), active, idle, free, queued, channel, admitted) && idle <= active.Keys
    requires c.commandId !in admitted && !IsCancel(c) && c.sessionId !in active && free > 0
    ensures At(Run(actions + [Admit(c)]), active[c.sessionId := c.commandId], idle, free - 1, queued, channel,
               admitted + {c.commandId})
  {
    RunNext(actions, Admit(c));
  }

  /** Work of an active session, or without a free permit, is queued. */
  lemma AdmitQueues(actions: seq<Action>, c: CommandEnvelope, active: map<Name, Name>, idle: set<Name>, free: nat,
                    queued: seq<CommandEnvelope>, channel: seq<Completion>, admitted: set<Name>)
    requires At(Run(actions), active, idle, free, queued, channel, admitted)
    requires c.commandId !in admitted && !IsCancel(c) && (c.sessionId in active || free == 0)
    ensures At(Run(actions + [Admit(c)]), active, idle, free, queued + [c], channel, admitted + {c.commandId})
  {
    RunNext(actions, Admit(c));
  }

  lemma EndFrees(actions: seq<Action>, s: Name, active: map<Name, Name>, free: nat,
                 queued: seq<CommandEnvelope>, admitted: set<Name>)
    requires At(Run(actions), active, {}, free, queued, [], admitted) && s in active
    ensures At(Run(actions + [End(s, false)]), active, {s}, free + 1, queued,
               [Completion(s, active[s], false)], admitted)
  {
    RunNext(actions, End(s, false));
  }

  predicate DistinctNames(names: seq<Name>) {
    forall i, j | 0 <= i < j < |names| :: names[i] != names[j]
  }

  /** Work of six sessions, three commands of it for the first. */
  ghost predicate Eight(a: CommandEnvelope, b: CommandEnvelope, c: CommandEnvelope, d: CommandEnvelope,
                        a2: CommandEnvelope, x: CommandEnvelope, a3: CommandEnvelope, e: CommandEnvelope) {
    && !IsCancel(a) && !IsCancel(b) && !IsCancel(c) && !IsCancel(d)
    && !IsCancel(a2) && !IsCancel(x) && !IsCancel(a3) && !IsCancel(e)
    && DistinctNames([a.commandId, b.commandId, c.commandId, d.commandId,
                      a2.commandId, x.commandId, a3.commandId, e.commandId])
    && DistinctNames([a.sessionId, b.sessionId, c.sessionId, d.sessionId, x.sessionId, e.sessionId])
    && a2.sessionId == a.sessionId && a3.sessionId == a.sessionId
  }

  function FourActive(a: CommandEnvelope, b: CommandEnvelope, c: CommandEnvelope, d: CommandEnvelope): map<Name, Name> {
    map[][a.sessionId := a.commandId][b.sessionId := b.commandId]
         [c.sessionId := c.commandId][d.sessionId := d.commandId]
  }

  function FourIds(a: CommandEnvelope, b: CommandEnvelope, c: CommandEnvelope, d: CommandEnvelope): set<Name> {
    {} + {a.commandId} + {b.commandId} + {c.commandId} + {d.commandId}
  }

  function FourRun(a: CommandEnvelope, b: CommandEnvelope, c: CommandEnvelope, d: CommandEnvelope): seq<Action> {
    [] + [Admit(a)] + [Admit(b)] + [Admit(c)] + [Admit(d)]
  }

  lemma FourStart(a: CommandEnvelope, b: CommandEnvelope, c: CommandEnvelope, d: CommandEnvelope)
    requires !IsCancel(a) && !IsCancel(b) && !IsCancel(c) && !IsCancel(d)
    requires DistinctNames([a.commandId, b.commandId, c.commandId, d.commandId])
    requires DistinctNames([a.sessionId, b.sessionId, c.sessionId, d.sessionId])
    ensures At(Run(FourRun(a, b, c, d)), FourActive(a, b, c, d), {}, 0, [], [], FourIds(a, b, c, d))
  {
    var ids := [a.commandId, b.commandId, c.commandId, d.commandId];
    var ss := [a.sessionId, b.sessionId, c.sessionId, d.sessionId];
    assert ids[0] == a.commandId && ids[1] == b.commandId && ids[2] == c.commandId && ids[3] == d.commandId;
    assert ss[0] == a.sessionId && ss[1] == b.sessionId && ss[2] == c.sessionId && ss[3] == d.sessionId;
    assert At(Run([]), map[], {}, 4, [], [], {});
    AdmitStarts([], a, map[], {}, 4, [], [], {});
    var m, n, r := map[][a.sessionId := a.commandId], {} + {a.commandId}, [] + [Admit(a)];
    AdmitStarts(r, b, m, {}, 3, [], [], n);
    m, n, r := m[b.sessionId := b.commandId], n + {b.commandId}, r + [Admit(b)];
    AdmitStarts(r, c, m, {}, 2, [], [], n);
    m, n, r := m[c.sessionId := c.commandId], n + {c.commandId}, r + [Admit(c)];
    AdmitStarts(r, d, m, {}, 1, [], [], n);
  }

  /** The first four take the permits; two more of the first session queue up with another session
      between them; one worker ends, and a late command takes its permit before that completion is
      handled. */
  function BreakingRun(a: CommandEnvelope, b: CommandEnvelope, c: CommandEnvelope, d: CommandEnvelope,
                       a2: CommandEnvelope, x: CommandEnvelope, a3: CommandEnvelope, e: CommandEnvelope): seq<Action> {
    FourRun(a, b, c, d) + [Admit(a2)] + [Admit(x)] + [Admit(a3)] + [End(b.sessionId, false)] + [Admit(e)]
  }

  lemma BreakingState(a: CommandEnvelope, b: CommandEnvelope, c: CommandEnvelope, d: CommandEnvelope,
                      a2: CommandEnvelope, x: CommandEnvelope, a3: CommandEnvelope, e: CommandEnvelope)
    requires Eight(a, b, c, d, a2, x, a3, e)
    ensures At(Run(BreakingRun(a, b, c, d, a2, x, a3, e)), FourActive(a, b, c, d)[e.sessionId := e.commandId],
               {b.sessionId}, 0, [] + [a2] + [x] + [a3], [Completion(b.sessionId, b.commandId, false)],
               FourIds(a, b, c, d) + {a2.commandId} + {x.commandId} + {a3.commandId} + {e.commandId})
  {
    var ids := [a.commandId, b.commandId, c.commandId, d.commandId,
                a2.commandId, x.commandId, a3.commandId, e.commandId];
    var ss := [a.sessionId, b.sessionId, c.sessionId, d.sessionId, x.sessionId, e.sessionId];
    assert ids[0] == a.commandId && ids[1] == b.commandId && ids[2] == c.commandId && ids[3] == d.commandId
        && ids[4] == a2.commandId && ids[5] == x.commandId && ids[6] == a3.commandId && ids[7] == e.commandId;
    assert ss[0] == a.sessionId && ss[1] == b.sessionId && ss[2] == c.sessionId && ss[3] == d.sessionId
        && ss[4] == x.sessionId && ss[5] == e.sessionId;
    FourStart(a, b, c, d);
    var m, n, r := FourActive(a, b, c, d), FourIds(a, b, c, d), FourRun(a, b, c, d);
    AdmitQueues(r, a2, m, {}, 0, [], [], n);
    n, r := n + {a2.commandId}, r + [Admit(a2)];
    AdmitQueues(r, x, m, {}, 0, [] + [a2], [], n);
    n, r := n + {x.commandId}, r + [Admit(x)];
    AdmitQueues(r, a3, m, {}, 0, [] + [a2] + [x], [], n);
    n, r := n + {a3.commandId}, r + [Admit(a3)];
    EndFrees(r, b.sessionId, m, 0, [] + [a2] + [x] + [a3], n);
    r := r + [End(b.sessionId, false)];
    AdmitStarts(r, e, m, {b.sessionId}, 1, [] + [a2] + [x] + [a3], [Completion(b.sessionId, b.commandId, false)], n);
  }

  /** With no permit free, a command of an active session in front of one that cannot start goes
      behind everything after it. */
  lemma PassTurns(a2: CommandEnvelope, x: CommandEnvelope, a3: CommandEnvelope, active: set<Name>)
    requires a2.sessionId in active && x.sessionId !in active
    ensures Drain([a2, x, a3], active, 0, {}) == Pass([a2], [x, a3], [], [])
  {
    assert [a2, x, a3][1..] == [x, a3];
    assert [a2] + [] == [a2];
  }

  /** Such a history exists: handling that completion turns the session's commands round. */
  lemma OrderBreaks(a: CommandEnvelope, b: CommandEnvelope, c: CommandEnvelope, d: CommandEnvelope,
                    a2: CommandEnvelope, x: CommandEnvelope, a3: CommandEnvelope, e: CommandEnvelope)
    requires Eight(a, b, c, d, a2, x, a3, e)
    ensures var run := BreakingRun(a, b, c, d, a2, x, a3, e);
      && Run(run).state.queued == [a2, x, a3]
      && Run(run + [Deliver]).state.queued == [x, a3, a2]
  {
    var run := BreakingRun(a, b, c, d, a2, x, a3, e);
    BreakingState(a, b, c, d, a2, x, a3, e);
    RunNext(run, Deliver);
    var ss := [a.sessionId, b.sessionId, c.sessionId, d.sessionId, x.sessionId, e.sessionId];
    assert ss[0] == a.sessionId && ss[1] == b.sessionId && ss[2] == c.sessionId && ss[3] == d.sessionId
        && ss[4] == x.sessionId && ss[5] == e.sessionId;
    var st := Run(run).state;
    assert [] + [a2] + [x] + [a3] == [a2, x, a3];
    var k := st.channel[0];
    var left := st.(channel := st.channel[1..], active := st.active - {k.sessionId});
    assert left.active.Keys == st.active.Keys - {k.sessionId};
    PassTurns(a2, x, a3, left.active.Keys);
    DeliverDrains(st);
    assert [x, a3] + [a2] == [x, a3, a2];
  }

  /** Without cancellations, handling a completion that ends no session frees it and drains. */
  lemma DeliverDrains(st: State)
    requires st.channel != [] && st.suppressed == map[] && st.pending == map[] && st.ended == {}
    requires var k := st.channel[0]; !k.terminal && k.sessionId in st.active && st.active[k.sessionId] == k.commandId
    ensures var k := st.channel[0];
      Receive(st) == Some(Finished(
        DrainQueue(st.(channel := st.channel[1..], active := st.active - {k.sessionId})), None))
  {
    var k := st.channel[0];
    var noted := st.(channel := st.channel[1..], active := st.active - {k.sessionId});
    assert noted.pending - {k.sessionId} == noted.pending;
    assert noted.(pending := noted.pending - {k.sessionId}) == noted;
  }
}
