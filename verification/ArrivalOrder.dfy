/** The synchronous path: each command frame is processed to its end and then everything it
    released is drained. The order in which the frames arrived leaves no trace. */
module ArrivalOrder {
  import opened Protocol
  import opened DeliveryLedger
  import LedgerInvariants

  /** The runtime as the journal sees it: one outcome, some events and a completion time
      for each command. */
  type Runtime = CommandEnvelope -> (Outcome, seq<Event>, string)

  /** A ledger and the commands dispatched so far, in order. */
  datatype Sync = Sync(ledger: Ledger, log: seq<CommandEnvelope>)

  const FRESH := Sync(EMPTY, [])

  ghost function RunToEnd(st: Sync, l: Ledger, id: Name, rt: Runtime): Sync
    requires id in l.commands
  {
    var e := l.commands[id].envelope;
    var (outcome, events, now) := rt(e);
    Sync(Finish(MarkStarted(l, id), id, outcome, events, now), st.log + [e])
  }

  ghost function Process(st: Sync, e: CommandEnvelope, limit: nat, rt: Runtime): Sync {
    if !ValidCommand(e) || Prepare(st.ledger, e, limit).Err? then st
    else
      var prepared := Prepare(st.ledger, e, limit).value;
      if HandsOut(prepared, e, e.command.SessionCancel?) && e.commandId in prepared.ledger.commands then
        RunToEnd(st, prepared.ledger, e.commandId, rt)
      else st.(ledger := prepared.ledger)
  }

  ghost function ReceivedIds(l: Ledger): set<Name> {
    set id | id in l.commands && l.commands[id].status.Received?
  }

  lemma RunCommands(st: Sync, l: Ledger, id: Name, rt: Runtime)
    requires id in l.commands
    ensures var r := RunToEnd(st, l, id, rt);
      && r.ledger.commands == l.commands[id := l.commands[id].(status := Terminal(rt(l.commands[id].envelope).0))]
      && ReceivedIds(r.ledger) == ReceivedIds(l) - {id}
  {
    var m := MarkStarted(l, id);
    var (outcome, events, now) := rt(l.commands[id].envelope);
    LedgerInvariants.AddAllFrame(Settle(m, id, outcome), FinishEvents(m, id, outcome, events, now));
  }

  /** Process ready commands of the session until none is left. */
  ghost function Drain(st: Sync, s: Name, rt: Runtime): Sync
    decreases ReceivedIds(st.ledger)
  {
    match ReadyId(st.ledger, s)
    case None => st
    case Some(id) =>
      RunCommands(st, st.ledger, id, rt);
      assert id in ReceivedIds(st.ledger);
      Drain(RunToEnd(st, st.ledger, id, rt), s, rt)
  }

  /** A refused frame stops there; an accepted one is followed by draining its session. */
  ghost function Feed(st: Sync, e: CommandEnvelope, limit: nat, rt: Runtime): Sync {
    if !ValidCommand(e) || Prepare(st.ledger, e, limit).Err? then st
    else Drain(Process(st, e, limit, rt), e.sessionId, rt)
  }

  ghost function FeedAll(es: seq<CommandEnvelope>, limit: nat, rt: Runtime): Sync {
    if es == [] then FRESH else Feed(FeedAll(es[..|es| - 1], limit, rt), es[|es| - 1], limit, rt)
  }

  function OfSession(log: seq<CommandEnvelope>, s: Name): seq<CommandEnvelope> {
    if log == [] then []
    else
      OfSession(log[..|log| - 1], s) + if log[|log| - 1].sessionId == s then [log[|log| - 1]] else []
  }

  /** Between two frames every accepted command is either finished, at or below the boundary
      of its session, or received, beyond it; and the log spells the boundary out. */
  ghost predicate Settled(st: Sync, limit: nat) {
    && LedgerInvariants.CommandInv(st.ledger, limit)
    && Sorted(st.ledger)
    && forall s :: Spelled(st, s)
  }

  ghost predicate Spelled(st: Sync, s: Name) {
    && |OfSession(st.log, s)| == Processed(st.ledger, s)
    && forall i | 0 <= i < |OfSession(st.log, s)| :: HoldsEnvelope(st.ledger, s, i + 1, OfSession(st.log, s)[i])
  }

  predicate HoldsEnvelope(l: Ledger, s: Name, n: nat, e: CommandEnvelope) {
    InSlot(l, e.commandId, s, n) && l.commands[e.commandId].envelope == e
  }

  /** Running the next command of a session moves its boundary by exactly one. */
  lemma RunToEndKeeps(st: Sync, id: Name, s: Name, limit: nat, rt: Runtime)
    requires Settled(st, limit) && Ready(st.ledger, id, s)
    ensures Settled(RunToEnd(st, st.ledger, id, rt), limit)
    ensures forall t :: Processed(RunToEnd(st, st.ledger, id, rt).ledger, t)
                     == Processed(st.ledger, t) + if t == s then 1 else 0
  {
    var l := st.ledger;
    var m := MarkStarted(l, id);
    var r := RunToEnd(st, l, id, rt);
    var (outcome, events, now) := rt(l.commands[id].envelope);
    LedgerInvariants.StartKeeps(l, id, limit);
    LedgerInvariants.FinishCommandInv(m, id, outcome, events, now, limit);
    RunCommands(st, l, id, rt);
    BoundaryMovesByOne(l, id, s, outcome, limit);
    LedgerInvariants.AddAllFrame(Settle(m, id, outcome), FinishEvents(m, id, outcome, events, now));
    RunStatus(l, r.ledger, id, s, limit);
    forall t ensures Spelled(r, t) {
      SpelledOn(st, r, id, s, t);
    }
  }

  lemma BoundaryMovesByOne(l: Ledger, id: Name, s: Name, outcome: Outcome, limit: nat)
    requires LedgerInvariants.CommandInv(l, limit) && Ready(l, id, s)
    requires forall jd | jd in l.commands && l.commands[jd].status.Terminal? ::
      l.commands[jd].envelope.commandSeq <= Processed(l, l.commands[jd].envelope.sessionId)
    ensures forall t :: Processed(Settle(MarkStarted(l, id), id, outcome), t)
                     == Processed(l, t) + if t == s then 1 else 0
  {
    var p := Processed(l, s);
    var m := MarkStarted(l, id);
    var closed := m.(commands := m.commands[id := m.commands[id].(status := Terminal(outcome))]);
    assert InSlot(closed, id, s, p + 1);
    forall jd | InSlot(closed, jd, s, p + 2) ensures !closed.commands[jd].status.Terminal? {
      assert InSlot(l, jd, s, p + 2);
    }
    assert Processed(m, s) == p;
    var q := Advance(closed, s, p);
    assert TerminalAt(closed, s, p + 1) && !TerminalAt(closed, s, p + 2);
  }

  ghost predicate Sorted(l: Ledger) {
    forall id | id in l.commands ::
      if l.commands[id].envelope.commandSeq <= Processed(l, l.commands[id].envelope.sessionId)
      then l.commands[id].status.Terminal? else l.commands[id].status.Received?
  }

  lemma RunStatus(l: Ledger, r: Ledger, id: Name, s: Name, limit: nat)
    requires LedgerInvariants.CommandInv(l, limit) && Sorted(l) && Ready(l, id, s)
    requires id in r.commands && r.commands[id].status.Terminal?
    requires r.commands == l.commands[id := l.commands[id].(status := r.commands[id].status)]
    requires forall t :: Processed(r, t) == Processed(l, t) + if t == s then 1 else 0
    ensures Sorted(r)
  {
    forall jd | jd in r.commands && jd != id
      ensures r.commands[jd].envelope.sessionId == s ==> r.commands[jd].envelope.commandSeq != Processed(l, s) + 1
    {
      assert !LedgerInvariants.SameIdentity(l.commands, id, jd);
    }
  }

  lemma SpelledOn(st: Sync, r: Sync, id: Name, s: Name, t: Name)
    requires Spelled(st, t) && Ready(st.ledger, id, s) && st.ledger.commands[id].envelope.commandId == id
    requires r.log == st.log + [st.ledger.commands[id].envelope]
    requires r.ledger.commands.Keys == st.ledger.commands.Keys
    requires forall jd | jd in st.ledger.commands :: r.ledger.commands[jd].envelope == st.ledger.commands[jd].envelope
    requires Processed(r.ledger, t) == Processed(st.ledger, t) + if t == s then 1 else 0
    ensures Spelled(r, t)
  {
    assert r.log[..|r.log| - 1] == st.log;
    var a := OfSession(st.log, t);
    forall i | 0 <= i < |OfSession(r.log, t)| ensures HoldsEnvelope(r.ledger, t, i + 1, OfSession(r.log, t)[i]) {
      if i < |a| {
        assert OfSession(r.log, t)[i] == a[i] && HoldsEnvelope(st.ledger, t, i + 1, a[i]);
      }
    }
  }

  lemma {:induction false} DrainKeeps(st: Sync, s: Name, limit: nat, rt: Runtime)
    requires Settled(st, limit)
    ensures var r := Drain(st, s, rt);
      && Settled(r, limit) && SameEnvelopes(st.ledger, r.ledger)
      && (forall id :: !Ready(r.ledger, id, s))
      && forall t | t != s :: Processed(r.ledger, t) == Processed(st.ledger, t)
    decreases ReceivedIds(st.ledger)
  {
    match ReadyId(st.ledger, s)
    case None =>
    case Some(id) =>
      RunCommands(st, st.ledger, id, rt);
      assert id in ReceivedIds(st.ledger);
      RunToEndKeeps(st, id, s, limit, rt);
      DrainKeeps(RunToEnd(st, st.ledger, id, rt), s, limit, rt);
  }

  predicate SameEnvelopes(l: Ledger, r: Ledger) {
    && r.commands.Keys == l.commands.Keys
    && forall id | id in l.commands :: r.commands[id].envelope == l.commands[id].envelope
  }

  /** Between frames nothing is left ready in any session. */
  ghost predicate Quiet(st: Sync, limit: nat) {
    Settled(st, limit) && forall s, id :: !Ready(st.ledger, id, s)
  }

  lemma IntakeSettled(st: Sync, e: CommandEnvelope, limit: nat)
    requires Settled(st, limit) && e.commandSeq >= 1 && Prepare(st.ledger, e, limit).Ok?
    ensures Settled(st.(ledger := Prepare(st.ledger, e, limit).value.ledger), limit)
  {
    LedgerInvariants.PrepareKeeps(st.ledger, e, limit);
    var r := st.(ledger := Prepare(st.ledger, e, limit).value.ledger);
    forall s ensures Spelled(r, s) {
      assert Spelled(st, s);
      forall i | 0 <= i < |OfSession(r.log, s)| ensures HoldsEnvelope(r.ledger, s, i + 1, OfSession(r.log, s)[i]) {
        assert HoldsEnvelope(st.ledger, s, i + 1, OfSession(st.log, s)[i]);
      }
    }
  }

  /** In a settled ledger a command is ready exactly when it fills the next place. */
  lemma NextIsReady(l: Ledger, s: Name)
    requires Sorted(l)
    ensures forall id :: Ready(l, id, s) <==> InSlot(l, id, s, Expected(l, s))
  {
  }

  /** Processing one frame keeps the state settled and takes in no more than that frame. */
  lemma ProcessKeeps(st: Sync, e: CommandEnvelope, limit: nat, rt: Runtime)
    requires Settled(st, limit)
    ensures var r := Process(st, e, limit, rt);
      && Settled(r, limit)
      && (forall t | t != e.sessionId :: Processed(r.ledger, t) == Processed(st.ledger, t))
      && if ValidCommand(e) && Prepare(st.ledger, e, limit).Ok?
         then SameEnvelopes(Prepare(st.ledger, e, limit).value.ledger, r.ledger) else r == st
  {
    if ValidCommand(e) && Prepare(st.ledger, e, limit).Ok? {
      var prepared := Prepare(st.ledger, e, limit).value;
      var taken := st.(ledger := prepared.ledger);
      IntakeSettled(st, e, limit);
      LedgerInvariants.PrepareEntry(st.ledger, e, limit);
      if HandsOut(prepared, e, e.command.SessionCancel?) {
        assert Ready(taken.ledger, e.commandId, e.sessionId);
        RunToEndKeeps(taken, e.commandId, e.sessionId, limit, rt);
        RunCommands(taken, taken.ledger, e.commandId, rt);
      }
    }
  }

  /** A frame for one session disturbs no other, and leaves nothing ready behind. */
  lemma FeedKeeps(st: Sync, e: CommandEnvelope, limit: nat, rt: Runtime)
    requires Quiet(st, limit)
    ensures var r := Feed(st, e, limit, rt);
      && Quiet(r, limit)
      && if ValidCommand(e) && Prepare(st.ledger, e, limit).Ok?
         then SameEnvelopes(Prepare(st.ledger, e, limit).value.ledger, r.ledger)
         else SameEnvelopes(st.ledger, r.ledger)
  {
    var r := Feed(st, e, limit, rt);
    if ValidCommand(e) && Prepare(st.ledger, e, limit).Ok? {
      ProcessKeeps(st, e, limit, rt);
      DrainKeeps(Process(st, e, limit, rt), e.sessionId, limit, rt);
    }
    forall t, id | t != e.sessionId ensures !Ready(r.ledger, id, t) {
      OtherSessionQuiet(st, r, e, limit, id, t);
    }
  }

  lemma OtherSessionQuiet(st: Sync, r: Sync, e: CommandEnvelope, limit: nat, id: Name, t: Name)
    requires Quiet(st, limit) && Settled(r, limit) && t != e.sessionId
    requires Processed(r.ledger, t) == Processed(st.ledger, t)
    requires if ValidCommand(e) && Prepare(st.ledger, e, limit).Ok?
             then SameEnvelopes(Prepare(st.ledger, e, limit).value.ledger, r.ledger)
             else SameEnvelopes(st.ledger, r.ledger)
    ensures !Ready(r.ledger, id, t)
  {
    NextIsReady(st.ledger, t);
    NextIsReady(r.ledger, t);
    assert !Ready(st.ledger, id, t);
    if ValidCommand(e) && Prepare(st.ledger, e, limit).Ok? {
      LedgerInvariants.PrepareEntry(st.ledger, e, limit);
    }
  }

  lemma {:induction false} FeedAllQuiet(es: seq<CommandEnvelope>, limit: nat, rt: Runtime)
    ensures Quiet(FeedAll(es, limit, rt), limit)
  {
    if es == [] {
      LedgerInvariants.EmptyLedger(limit);
    } else {
      FeedAllQuiet(es[..|es| - 1], limit, rt);
      FeedKeeps(FeedAll(es[..|es| - 1], limit, rt), es[|es| - 1], limit, rt);
    }
  }

  predicate Accepted(l: Ledger, e: CommandEnvelope) {
    e.commandId in l.commands && l.commands[e.commandId].envelope == e
  }

  /** `log` is the commands 1, 2, .., k of the session, k the longest gap-free prefix of what
      the ledger accepted. */
  ghost predicate LongestPrefix(l: Ledger, s: Name, log: seq<CommandEnvelope>) {
    && (forall i | 0 <= i < |log| :: log[i].sessionId == s && log[i].commandSeq == i + 1 && Accepted(l, log[i]))
    && !Held(l, s, |log| + 1)
  }

  /** Whatever frames arrive, in whatever order and however often, each session's dispatch log
      is the longest gap-free prefix of what was accepted, and nothing that could run waits. */
  lemma DispatchIsLongestPrefix(es: seq<CommandEnvelope>, limit: nat, rt: Runtime, s: Name)
    ensures var st := FeedAll(es, limit, rt);
      LongestPrefix(st.ledger, s, OfSession(st.log, s)) && forall id :: !Ready(st.ledger, id, s)
  {
    FeedAllQuiet(es, limit, rt);
    var st := FeedAll(es, limit, rt);
    var log := OfSession(st.log, s);
    assert Spelled(st, s);
    forall i | 0 <= i < |log|
      ensures log[i].sessionId == s && log[i].commandSeq == i + 1 && Accepted(st.ledger, log[i])
    {
      assert HoldsEnvelope(st.ledger, s, i + 1, log[i]);
    }
    NextIsReady(st.ledger, s);
    var next := |log| + 1;
    forall id ensures !InSlot(st.ledger, id, s, next) {
      assert !Ready(st.ledger, id, s);
    }
  }

  /** Two histories that accepted the same commands of a session dispatched the same commands
      in the same order. */
  lemma OrderIrrelevant(xs: seq<CommandEnvelope>, ys: seq<CommandEnvelope>, limit: nat, rt: Runtime, s: Name)
    requires forall e: CommandEnvelope | e.sessionId == s ::
      Accepted(FeedAll(xs, limit, rt).ledger, e) <==> Accepted(FeedAll(ys, limit, rt).ledger, e)
    ensures OfSession(FeedAll(xs, limit, rt).log, s) == OfSession(FeedAll(ys, limit, rt).log, s)
  {
    var x, y := FeedAll(xs, limit, rt), FeedAll(ys, limit, rt);
    FeedAllQuiet(xs, limit, rt);
    FeedAllQuiet(ys, limit, rt);
    DispatchIsLongestPrefix(xs, limit, rt, s);
    DispatchIsLongestPrefix(ys, limit, rt, s);
    PrefixUnique(x.ledger, y.ledger, OfSession(x.log, s), OfSession(y.log, s), s);
  }

  lemma PrefixUnique(l: Ledger, r: Ledger, a: seq<CommandEnvelope>, b: seq<CommandEnvelope>, s: Name)
    requires forall e: CommandEnvelope | e.sessionId == s :: Accepted(l, e) <==> Accepted(r, e)
    requires LongestPrefix(l, s, a) && LongestPrefix(r, s, b) && LedgerInvariants.Keyed(r)
    ensures a == b
  {
    PrefixNoLonger(l, r, a, b, s);
    PrefixNoLonger(r, l, b, a, s);
    forall i | 0 <= i < |a| ensures a[i] == b[i] {
      assert Accepted(r, a[i]) && Accepted(r, b[i]);
      LedgerInvariants.SlotUnique(r, a[i].commandId, b[i].commandId, s, i + 1);
    }
  }

  lemma PrefixNoLonger(l: Ledger, r: Ledger, a: seq<CommandEnvelope>, b: seq<CommandEnvelope>, s: Name)
    requires forall e: CommandEnvelope | e.sessionId == s :: Accepted(l, e) <==> Accepted(r, e)
    requires LongestPrefix(l, s, a) && LongestPrefix(r, s, b)
    ensures |a| <= |b|
  {
    forall n | 1 <= n <= |a| ensures Held(r, s, n) {
      assert InSlot(r, a[n - 1].commandId, s, n);
    }
  }

  /** Frames of one genuine history: valid, and any two that share an identity are the same. */
  ghost predicate Genuine(es: seq<CommandEnvelope>) {
    && (forall e | e in es :: ValidCommand(e))
    && forall e, f | e in es && f in es :: Related(e, f) ==> e == f
  }

  /** The commands of a session beyond its first, each counted once. */
  function Later(es: seq<CommandEnvelope>, s: Name): set<Name> {
    set e | e in es && e.sessionId == s && e.commandSeq > 1 :: e.commandId
  }

  /** No session has more commands beyond its first than its gap buffer holds. */
  ghost predicate WithinLimit(es: seq<CommandEnvelope>, limit: nat) {
    forall s :: |Later(es, s)| <= limit
  }

  ghost predicate EachAccepted(es: seq<CommandEnvelope>, limit: nat, rt: Runtime) {
    forall e | e in es :: Accepted(FeedAll(es, limit, rt).ledger, e)
  }

  predicate DrawnFrom(ys: seq<CommandEnvelope>, es: seq<CommandEnvelope>) {
    forall e | e in ys :: e in es
  }

  /** The journal holds nothing but frames it was fed. */
  ghost predicate OnlyFrom(l: Ledger, es: seq<CommandEnvelope>) {
    forall id | id in l.commands :: l.commands[id].envelope in es && l.commands[id].envelope.commandId == id
  }

  lemma {:induction false} OnlyFed(es: seq<CommandEnvelope>, limit: nat, rt: Runtime)
    ensures OnlyFrom(FeedAll(es, limit, rt).ledger, es)
  {
    if es != [] {
      var n := |es| - 1;
      var e, st := es[n], FeedAll(es[..n], limit, rt);
      assert es == es[..n] + [e];
      OnlyFed(es[..n], limit, rt);
      FeedAllQuiet(es[..n], limit, rt);
      FeedKeeps(st, e, limit, rt);
      if ValidCommand(e) && Prepare(st.ledger, e, limit).Ok? {
        LedgerInvariants.PrepareEntry(st.ledger, e, limit);
      }
    }
  }

  lemma LaterOfPart(ys: seq<CommandEnvelope>, es: seq<CommandEnvelope>, limit: nat)
    requires DrawnFrom(ys, es) && WithinLimit(es, limit)
    ensures WithinLimit(ys, limit)
  {
    forall s ensures |Later(ys, s)| <= limit {
      assert Later(ys, s) <= Later(es, s);
      LedgerInvariants.SubsetSize(Later(ys, s), Later(es, s));
    }
  }

  /** Within the gap limit every frame of a genuine history is accepted, however often each comes, so
      the dispatch order is a function of the set of commands alone. */
  lemma {:induction false} AllAccepted(es: seq<CommandEnvelope>, limit: nat, rt: Runtime)
    requires Genuine(es) && WithinLimit(es, limit)
    ensures forall e :: Accepted(FeedAll(es, limit, rt).ledger, e) <==> e in es
  {
    OnlyFed(es, limit, rt);
    if es != [] {
      var n := |es| - 1;
      var e, st := es[n], FeedAll(es[..n], limit, rt);
      assert es == es[..n] + [e];
      LaterOfPart(es[..n], es, limit);
      AllAccepted(es[..n], limit, rt);
      FeedAllQuiet(es[..n], limit, rt);
      OnlyFed(es[..n], limit, rt);
      GenuineAccepted(es, e, st.ledger, limit);
      FeedKeeps(st, e, limit, rt);
      LedgerInvariants.PrepareEntry(st.ledger, e, limit);
      var r := Feed(st, e, limit, rt).ledger;
      forall f | f in es ensures Accepted(r, f) {
        assert f in es[..n] ==> Accepted(st.ledger, f);
      }
    }
  }

  lemma GenuineAccepted(es: seq<CommandEnvelope>, e: CommandEnvelope, l: Ledger, limit: nat)
    requires Genuine(es) && e in es && LedgerInvariants.CommandInv(l, limit)
    requires WithinLimit(es, limit) && OnlyFrom(l, es)
    ensures Prepare(l, e, limit).Ok?
  {
    assert !Conflicts(l, e);
    if e.commandId !in l.commands {
      if e.commandSeq > Expected(l, e.sessionId) {
        assert e.commandId in Later(es, e.sessionId);
        assert Waiting(l, e.sessionId) <= Later(es, e.sessionId) - {e.commandId};
        LedgerInvariants.SubsetSize(Waiting(l, e.sessionId), Later(es, e.sessionId) - {e.commandId});
      } else if e.commandSeq < Expected(l, e.sessionId) {
        LedgerInvariants.BelowBoundaryConflicts(l, limit, e);
      }
    }
  }

  /** Commands of one session that come without its first one all wait, so more of them than the
      limit are not all accepted. */
  lemma WithoutFirst(ys: seq<CommandEnvelope>, limit: nat, rt: Runtime, s: Name)
    requires forall e | e in ys :: e.sessionId == s && e.commandSeq > 1
    requires EachAccepted(ys, limit, rt)
    ensures |Later(ys, s)| <= limit
  {
    var l := FeedAll(ys, limit, rt).ledger;
    OnlyFed(ys, limit, rt);
    FeedAllQuiet(ys, limit, rt);
    forall id ensures !InSlot(l, id, s, 1) {
      assert id in l.commands ==> l.commands[id].envelope in ys;
    }
    assert !Held(l, s, 1) && Processed(l, s) == 0;
    assert Later(ys, s) <= Waiting(l, s);
    LedgerInvariants.SubsetSize(Later(ys, s), Waiting(l, s));
  }

  function OnlyLater(es: seq<CommandEnvelope>, s: Name): (r: seq<CommandEnvelope>)
    ensures forall e :: e in r <==> e in es && e.sessionId == s && e.commandSeq > 1
  {
    if es == [] then []
    else
      var n := |es| - 1;
      assert es == es[..n] + [es[n]];
      OnlyLater(es[..n], s) + if es[n].sessionId == s && es[n].commandSeq > 1 then [es[n]] else []
  }

  /** The gap limit is met exactly: any part of a genuine history is accepted in any order and with
      any repetition if and only if no session has more than `limit` commands beyond its first. */
  lemma AcceptedInAnyOrderIff(es: seq<CommandEnvelope>, limit: nat, rt: Runtime)
    requires Genuine(es)
    ensures (forall ys | DrawnFrom(ys, es) :: EachAccepted(ys, limit, rt)) <==> WithinLimit(es, limit)
  {
    if WithinLimit(es, limit) {
      forall ys | DrawnFrom(ys, es) ensures EachAccepted(ys, limit, rt) {
        LaterOfPart(ys, es, limit);
        AllAccepted(ys, limit, rt);
      }
    }
    if forall ys | DrawnFrom(ys, es) :: EachAccepted(ys, limit, rt) {
      forall s ensures |Later(es, s)| <= limit {
        var ys := OnlyLater(es, s);
        assert DrawnFrom(ys, es) && Later(ys, s) == Later(es, s);
        WithoutFirst(ys, limit, rt, s);
      }
    }
  }

  /** The headline: two deliveries of the same genuine set of commands, in any order and with
      any repetition, make the daemon do the same work in the same order. */
  lemma SameWorkAnyOrder(xs: seq<CommandEnvelope>, ys: seq<CommandEnvelope>, limit: nat, rt: Runtime, s: Name)
    requires Genuine(xs) && (forall e :: e in xs <==> e in ys) && WithinLimit(xs, limit)
    ensures OfSession(FeedAll(xs, limit, rt).log, s) == OfSession(FeedAll(ys, limit, rt).log, s)
  {
    LaterOfPart(ys, xs, limit);
    AllAccepted(xs, limit, rt);
    AllAccepted(ys, limit, rt);
    OrderIrrelevant(xs, ys, limit, rt, s);
  }
}
