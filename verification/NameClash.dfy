/** When two events of a journal come to share an id, and what becomes of them then. */
module NameClash {
  import opened Protocol
  import opened DeliveryLedger
  import opened DurableStore
  import LedgerInvariants

  /* ---- Every course of a journal, as far as its commands and event ids go ---- */

  /** `ledger` holds the commands, `names` the ids of the events in the order they were pushed. */
  datatype Track = Track(ledger: Ledger, names: seq<EventId>)

  const EMPTY_TRACK := Track(EMPTY, [])

  datatype Op =
    | Intake(envelope: CommandEnvelope)
    | Start(command: Name)
    | Close(command: Name, count: nat, outcome: Outcome)
    | Append(id: EventId)

  /** The command may be handed out: it is its turn, or it is a cancellation overtaking started work. */
  predicate Startable(l: Ledger, c: Name) {
    && c in l.commands && l.commands[c].status.Received?
    && (l.commands[c].envelope.commandSeq == Expected(l, l.commands[c].envelope.sessionId)
        || (l.commands[c].envelope.command.SessionCancel? && PriorDispatch(l, l.commands[c].envelope)))
  }

  predicate Started(l: Ledger, c: Name) {
    c in l.commands && l.commands[c].status.DispatchStarted?
  }

  /** The ids formed when a command finishes with `count` events. */
  function Formed(c: Name, count: nat, outcome: Outcome): seq<EventId> {
    seq(count, i requires 0 <= i < count => RuntimeEvent(c, i + 1))
    + if outcome.Unknown? then [UnknownEvent(c)] else []
  }

  /** They are the ids of the events the journal emits. */
  lemma FormedIs(c: Name, s: Name, base: nat, events: seq<Event>, outcome: Outcome, now: string)
    ensures var es := Emitted(c, s, base, events, outcome, now);
      |es| == |Formed(c, |events|, outcome)|
      && forall i | 0 <= i < |es| :: es[i].eventId == Formed(c, |events|, outcome)[i]
  {
  }

  /** An append looks whether its id is held; a completion does not. */
  ghost function Next(t: Track, op: Op, limit: nat): Track {
    match op
    case Intake(e) =>
      if ValidCommand(e) && Prepare(t.ledger, e, limit).Ok?
      then t.(ledger := Prepare(t.ledger, e, limit).value.ledger) else t
    case Start(c) => if Startable(t.ledger, c) then t.(ledger := MarkStarted(t.ledger, c)) else t
    case Close(c, count, outcome) =>
      if Started(t.ledger, c) then Track(Settle(t.ledger, c, outcome), t.names + Formed(c, count, outcome)) else t
    case Append(id) => if id in t.names then t else t.(names := t.names + [id])
  }

  /** The journal in memory and on disk. */
  datatype Kept = Kept(memory: Track, disk: Track)

  const START := Kept(EMPTY_TRACK, EMPTY_TRACK)

  datatype Move = Change(op: Op, p: Persist) | Restart

  ghost function Step(k: Kept, m: Move, limit: nat): Kept {
    match m
    case Restart => Kept(k.disk, k.disk)
    case Change(op, p) =>
      var next := Next(k.memory, op, limit);
      match p
      case Saved => Kept(next, next)
      case Failed(written, readable) =>
        var disk := if written then next else k.disk;
        Kept(if readable then disk else k.memory, disk)
  }

  ghost function After(k: Kept, moves: seq<Move>, limit: nat): Kept {
    if moves == [] then k else Step(After(k, moves[..|moves| - 1], limit), moves[|moves| - 1], limit)
  }

  /** The move appends no id that the journal may still form. */
  predicate Clear(k: Kept, m: Move) {
    m.Change? && m.op.Append? ==> !LedgerInvariants.Anticipates(k.memory.ledger, m.op.id)
  }

  ghost predicate ClearFrom(k: Kept, moves: seq<Move>, limit: nat) {
    forall n | 0 <= n < |moves| :: Clear(After(k, moves[..n], limit), moves[n])
  }

  predicate SameName(names: seq<EventId>, i: int, j: int) {
    0 <= i < j < |names| && names[i] == names[j]
  }

  ghost predicate Shares(t: Track) {
    exists i, j :: SameName(t.names, i, j)
  }

  /* ---- Without anticipated ids nothing is shared ---- */

  ghost predicate Good(t: Track, limit: nat) {
    && LedgerInvariants.CommandInv(t.ledger, limit) && !Shares(t)
    && forall id | id in t.names :: !LedgerInvariants.Anticipates(t.ledger, id)
  }

  ghost predicate Sound(k: Kept, limit: nat) {
    Good(k.memory, limit) && Good(k.disk, limit)
  }

  lemma FormedAnticipated(l: Ledger, c: Name, count: nat, outcome: Outcome)
    requires Started(l, c)
    ensures forall id | id in Formed(c, count, outcome) :: LedgerInvariants.Anticipates(l, id)
    ensures forall i, j :: !SameName(Formed(c, count, outcome), i, j)
  {
  }

  lemma JoinedApart(a: seq<EventId>, b: seq<EventId>)
    requires (forall i, j :: !SameName(a, i, j)) && forall i, j :: !SameName(b, i, j)
    requires forall id | id in b :: id !in a
    ensures forall i, j :: !SameName(a + b, i, j)
  {
    forall i, j | 0 <= i < j < |a + b| ensures !SameName(a + b, i, j) {
      assert !SameName(a, i, j) && !SameName(b, i - |a|, j - |a|);
      assert i < |a| <= j ==> (a + b)[i] in a && (a + b)[j] in b;
    }
  }

  lemma CloseGood(t: Track, c: Name, count: nat, outcome: Outcome, limit: nat)
    requires Good(t, limit) && Started(t.ledger, c)
    ensures Good(Next(t, Close(c, count, outcome), limit), limit)
  {
    LedgerInvariants.SettleKeeps(t.ledger, c, outcome, limit);
    FormedAnticipated(t.ledger, c, count, outcome);
    JoinedApart(t.names, Formed(c, count, outcome));
  }

  lemma NextGood(t: Track, op: Op, limit: nat)
    requires Good(t, limit) && (op.Append? ==> !LedgerInvariants.Anticipates(t.ledger, op.id))
    ensures Good(Next(t, op, limit), limit)
  {
    match op
    case Intake(e) =>
      if ValidCommand(e) && Prepare(t.ledger, e, limit).Ok? {
        LedgerInvariants.PrepareKeeps(t.ledger, e, limit);
      }
    case Start(c) =>
      if Startable(t.ledger, c) {
        LedgerInvariants.StartKeeps(t.ledger, c, limit);
      }
    case Close(c, count, outcome) =>
      if Started(t.ledger, c) {
        CloseGood(t, c, count, outcome, limit);
      }
    case Append(id) => JoinedApart(t.names, if id in t.names then [] else [id]);
  }

  lemma StepSound(k: Kept, m: Move, limit: nat)
    requires Sound(k, limit) && Clear(k, m)
    ensures Sound(Step(k, m, limit), limit)
  {
    if m.Change? {
      NextGood(k.memory, m.op, limit);
    }
  }

  lemma {:induction false} AfterSound(k: Kept, moves: seq<Move>, limit: nat)
    requires Sound(k, limit) && ClearFrom(k, moves, limit)
    ensures Sound(After(k, moves, limit), limit)
  {
    if moves != [] {
      var shorter, last := moves[..|moves| - 1], moves[|moves| - 1];
      assert ClearFrom(k, shorter, limit) by {
        assert forall n | 0 <= n < |shorter| :: shorter[..n] == moves[..n];
      }
      AfterSound(k, shorter, limit);
      StepSound(After(k, shorter, limit), last, limit);
    }
  }

  /** Over every course with failed rewrites and restarts in which no append anticipates an id, no two
      events share one, in memory or on disk. */
  lemma NamesApart(moves: seq<Move>, limit: nat)
    requires ClearFrom(START, moves, limit)
    ensures Sound(After(START, moves, limit), limit)
    ensures !Shares(After(START, moves, limit).memory) && !Shares(After(START, moves, limit).disk)
  {
    LedgerInvariants.EmptyLedger(limit);
    AfterSound(START, moves, limit);
  }

  /* ---- With one, there is a continuation that shares it ---- */

  ghost function Ops(t: Track, ops: seq<Op>, limit: nat): Track {
    if ops == [] then t else Next(Ops(t, ops[..|ops| - 1], limit), ops[|ops| - 1], limit)
  }

  lemma {:induction false} OpsSplit(t: Track, a: seq<Op>, b: seq<Op>, limit: nat)
    ensures Ops(t, a + b, limit) == Ops(Ops(t, a, limit), b, limit)
  {
    if b == [] {
      assert a + b == a;
    } else {
      assert (a + b)[..|a + b| - 1] == a + b[..|b| - 1];
      OpsSplit(t, a, b[..|b| - 1], limit);
    }
  }

  lemma OneOp(t: Track, op: Op, limit: nat)
    ensures Ops(t, [op], limit) == Next(t, op, limit)
  {
    assert [op][..0] == [];
    assert Ops(t, [op], limit) == Next(Ops(t, [], limit), op, limit);
  }

  lemma UpperBound(used: set<Name>) returns (n: Name)
    ensures forall m | m in used :: m < n
  {
    if used == {} {
      n := 0;
    } else {
      var m :| m in used;
      var b := UpperBound(used - {m});
      n := if b > m then b else m + 1;
      forall x | x in used ensures x < n {
        assert x == m || x in used - {m};
      }
    }
  }

  /** Nothing of these steps appends an event or reports one. */
  predicate Quiet(ops: seq<Op>) {
    forall op | op in ops :: !op.Append? && (op.Close? ==> op.count == 0 && op.outcome.DispatchSucceeded?)
  }

  /** `u` is what quiet steps make of `t`: the same names, and every command that has not finished in it
      as it was, save at the places `s`, up to `n`. */
  ghost predicate Leads(t: Track, u: Track, s: Name, n: nat, limit: nat) {
    && LedgerInvariants.CommandInv(u.ledger, limit) && u.names == t.names
    && forall c | c in t.ledger.commands && !LedgerInvariants.HasFinished(t.ledger, c)
         && !(t.ledger.commands[c].envelope.sessionId == s && t.ledger.commands[c].envelope.commandSeq <= n) ::
         c in u.ledger.commands && u.ledger.commands[c] == t.ledger.commands[c]
  }

  lemma LeadsOn(t: Track, u: Track, v: Track, s: Name, m: nat, n: nat, limit: nat)
    requires Leads(t, u, s, m, limit) && Leads(u, v, s, n, limit) && m <= n
    ensures Leads(t, v, s, n, limit)
  {
  }

  function Filler(c: Name, s: Name, n: nat): CommandEnvelope {
    CommandEnvelope(c, s, n, "now", SessionResume)
  }

  lemma Received(l: Ledger, c: Name, s: Name, n: nat, limit: nat)
    requires LedgerInvariants.CommandInv(l, limit) && c !in l.commands && n >= 1
    requires n == Expected(l, s) && !Held(l, s, n)
    ensures Prepare(l, Filler(c, s, n), limit).Ok?
    ensures Prepare(l, Filler(c, s, n), limit).value.ledger
         == l.(commands := l.commands[c := CommandEntry(Filler(c, s, n), Status.Received)])
  {
    var e := Filler(c, s, n);
    forall id | id in l.commands ensures !Related(l.commands[id].envelope, e) {
      assert !InSlot(l, id, s, n);
    }
    assert !Conflicts(l, e);
  }

  /** A command not yet known can come next in a session whose next place is free, and be started. */
  lemma BringIn(t: Track, c: Name, s: Name, limit: nat) returns (ops: seq<Op>)
    requires LedgerInvariants.CommandInv(t.ledger, limit) && c !in t.ledger.commands
    requires !Held(t.ledger, s, Expected(t.ledger, s))
    ensures Quiet(ops)
    ensures var u := Ops(t, ops, limit);
      && Leads(t, u, s, 0, limit) && Started(u.ledger, c) && InSlot(u.ledger, c, s, Expected(t.ledger, s))
      && forall r :: Processed(u.ledger, r) == Processed(t.ledger, r)
  {
    var l, n := t.ledger, Expected(t.ledger, s);
    var e := Filler(c, s, n);
    Received(l, c, s, n, limit);
    assert ValidCommand(e) by {
      assert 'n' in e.sentAt;
    }
    var taken := Next(t, Intake(e), limit);
    LedgerInvariants.PrepareKeeps(l, e, limit);
    LedgerInvariants.StartKeeps(taken.ledger, c, limit);
    ops := [Intake(e)] + [Start(c)];
    OneOp(t, Intake(e), limit);
    OneOp(taken, Start(c), limit);
    OpsSplit(t, [Intake(e)], [Start(c)], limit);
  }

  /** Whatever holds the next place of a session, or a new command there, can be started. */
  lemma StartNext(t: Track, s: Name, limit: nat) returns (ops: seq<Op>, d: Name)
    requires LedgerInvariants.CommandInv(t.ledger, limit)
    ensures Quiet(ops)
    ensures var u, n := Ops(t, ops, limit), Expected(t.ledger, s);
      && Leads(t, u, s, n, limit) && Started(u.ledger, d) && InSlot(u.ledger, d, s, n)
      && forall r :: Processed(u.ledger, r) == Processed(t.ledger, r)
  {
    var l, n := t.ledger, Expected(t.ledger, s);
    if Held(l, s, n) {
      d :| InSlot(l, d, s, n);
      assert !l.commands[d].status.Terminal? by {
        assert !TerminalAt(l, s, n);
      }
      if l.commands[d].status.Received? {
        LedgerInvariants.StartKeeps(l, d, limit);
        OneOp(t, Start(d), limit);
        ops := [Start(d)];
      } else {
        ops := [];
        assert Ops(t, ops, limit) == t;
      }
    } else {
      d := UpperBound(l.commands.Keys);
      ops := BringIn(t, d, s, limit);
      LeadsOn(t, t, Ops(t, ops, limit), s, 0, 0, limit);
    }
  }

  /** Its end moves the boundary past it. */
  lemma CloseNext(t: Track, d: Name, s: Name, limit: nat)
    requires LedgerInvariants.CommandInv(t.ledger, limit) && Started(t.ledger, d)
    requires InSlot(t.ledger, d, s, Expected(t.ledger, s))
    ensures var u := Next(t, Close(d, 0, DispatchSucceeded), limit);
      Leads(t, u, s, Expected(t.ledger, s), limit) && Processed(u.ledger, s) >= Expected(t.ledger, s)
  {
    var l, n := t.ledger, Expected(t.ledger, s);
    var r := Settle(l, d, DispatchSucceeded);
    LedgerInvariants.SettleKeeps(l, d, DispatchSucceeded, limit);
    assert Formed(d, 0, DispatchSucceeded) == [] && t.names + [] == t.names;
    assert InSlot(r, d, s, n) && TerminalAt(r, s, n);
    assert !TerminalAt(r, s, Expected(r, s));
  }

  lemma OneOn(t: Track, s: Name, limit: nat) returns (ops: seq<Op>)
    requires LedgerInvariants.CommandInv(t.ledger, limit)
    ensures Quiet(ops)
    ensures var u, n := Ops(t, ops, limit), Expected(t.ledger, s);
      Leads(t, u, s, n, limit) && Processed(u.ledger, s) >= n
  {
    var starting, d := StartNext(t, s, limit);
    var u, close := Ops(t, starting, limit), Close(d, 0, DispatchSucceeded);
    CloseNext(u, d, s, limit);
    OneOp(u, close, limit);
    OpsSplit(t, starting, [close], limit);
    ops := starting + [close];
    LeadsOn(t, u, Next(u, close, limit), s, Expected(t.ledger, s), Expected(t.ledger, s), limit);
  }

  predicate Waits(l: Ledger, c: Name, s: Name, n: nat) {
    InSlot(l, c, s, n) && l.commands[c].status.Received?
  }

  /** A session can go on until it is the turn of a command that waits in it. */
  lemma ComeTo(t: Track, c: Name, s: Name, n: nat, limit: nat) returns (ops: seq<Op>)
    requires LedgerInvariants.CommandInv(t.ledger, limit) && Waits(t.ledger, c, s, n)
    ensures Quiet(ops)
    ensures var u := Ops(t, ops, limit);
      && LedgerInvariants.CommandInv(u.ledger, limit) && u.names == t.names
      && Waits(u.ledger, c, s, n) && Expected(u.ledger, s) == n
    decreases n - Processed(t.ledger, s)
  {
    if Expected(t.ledger, s) == n {
      ops := [];
      assert Ops(t, ops, limit) == t;
    } else {
      var first := OneOn(t, s, limit);
      var u := Ops(t, first, limit);
      assert Waits(u.ledger, c, s, n);
      var rest := ComeTo(u, c, s, n, limit);
      OpsSplit(t, first, rest, limit);
      ops := first + rest;
    }
  }

  /** Any command that has not finished can come to be started. */
  lemma Startup(t: Track, c: Name, limit: nat) returns (ops: seq<Op>)
    requires LedgerInvariants.CommandInv(t.ledger, limit) && !LedgerInvariants.HasFinished(t.ledger, c)
    ensures Quiet(ops)
    ensures var u := Ops(t, ops, limit); Started(u.ledger, c) && u.names == t.names
  {
    var l := t.ledger;
    if c !in l.commands {
      var s := UpperBound(l.sessions.Keys + SessionsOf(l));
      assert Processed(l, s) == 0;
      forall id ensures !InSlot(l, id, s, 1) {
        assert id in l.commands ==> l.commands[id].envelope.sessionId in SessionsOf(l);
      }
      ops := BringIn(t, c, s, limit);
    } else if l.commands[c].status.DispatchStarted? {
      ops := [];
      assert Ops(t, ops, limit) == t;
    } else {
      var s, n := l.commands[c].envelope.sessionId, l.commands[c].envelope.commandSeq;
      var coming := ComeTo(t, c, s, n, limit);
      OneOp(Ops(t, coming, limit), Start(c), limit);
      OpsSplit(t, coming, [Start(c)], limit);
      ops := coming + [Start(c)];
    }
  }

  function SessionsOf(l: Ledger): set<Name> {
    set id | id in l.commands :: l.commands[id].envelope.sessionId
  }

  /* ---- The two together ---- */

  /** The operations, each with a rewrite that succeeds. */
  function Saving(ops: seq<Op>): seq<Move> {
    seq(|ops|, i requires 0 <= i < |ops| => Change(ops[i], Saved))
  }

  lemma {:induction false} SavingIs(k: Kept, ops: seq<Op>, limit: nat)
    ensures After(k, Saving(ops), limit).memory == Ops(k.memory, ops, limit)
  {
    if ops != [] {
      var front := ops[..|ops| - 1];
      assert Saving(ops)[..|ops| - 1] == Saving(front);
      SavingIs(k, front, limit);
    }
  }

  predicate NoAppends(ops: seq<Op>) {
    forall op | op in ops :: !op.Append?
  }

  lemma SavingClear(k: Kept, ops: seq<Op>, limit: nat)
    requires NoAppends(ops)
    ensures ClearFrom(k, Saving(ops), limit)
  {
  }

  /** The close of a command whose id was taken beforehand. */
  function Claiming(c: Name, id: EventId): Op {
    if id.RuntimeEvent? then Close(c, id.index, DispatchSucceeded) else Close(c, 0, Unknown(""))
  }

  lemma ClaimShares(t: Track, c: Name, id: EventId, i: nat, limit: nat)
    requires Started(t.ledger, c) && i < |t.names| && t.names[i] == id
    requires id == UnknownEvent(c) || (id.RuntimeEvent? && id.command == c && id.index >= 1)
    ensures Shares(Next(t, Claiming(c, id), limit))
  {
    var r, n := Next(t, Claiming(c, id), limit), |t.names|;
    var j := if id.RuntimeEvent? then n + id.index - 1 else n;
    assert SameName(r.names, i, j);
  }

  /** An id that anticipates one of a command is taken again in some continuation: the command comes to
      be started, and finishes. */
  lemma Collides(t: Track, id: EventId, limit: nat) returns (ops: seq<Op>)
    requires LedgerInvariants.CommandInv(t.ledger, limit) && LedgerInvariants.Anticipates(t.ledger, id)
    requires id in t.names
    ensures NoAppends(ops) && Shares(Ops(t, ops, limit))
  {
    var c := id.command;
    var starting := Startup(t, c, limit);
    var u, claim := Ops(t, starting, limit), Claiming(c, id);
    var i :| 0 <= i < |t.names| && t.names[i] == id;
    ClaimShares(u, c, id, i, limit);
    OneOp(u, claim, limit);
    OpsSplit(t, starting, [claim], limit);
    ops := starting + [claim];
  }

  /** The moves append nothing the journal may still form, and bring two events to share an id. */
  ghost predicate BringClash(k: Kept, moves: seq<Move>, limit: nat) {
    ClearFrom(k, moves, limit) && Shares(After(k, moves, limit).memory)
  }

  /** From a state in which nothing was anticipated, appending an event under `id` makes it possible
      that two events share an id, without any further such append, if and only if `id` is
      `RuntimeEvent(c, k)` with `k >= 1`, or `UnknownEvent(c)`, of a command that has not finished. */
  lemma SharedIff(moves: seq<Move>, id: EventId, limit: nat)
    requires ClearFrom(START, moves, limit)
    ensures var k := After(START, moves, limit);
      (exists more :: BringClash(Step(k, Change(Append(id), Saved), limit), more, limit))
      <==> LedgerInvariants.Anticipates(k.memory.ledger, id)
  {
    NamesApart(moves, limit);
    var k := After(START, moves, limit);
    var appended := Step(k, Change(Append(id), Saved), limit);
    if LedgerInvariants.Anticipates(k.memory.ledger, id) {
      var ops := Collides(appended.memory, id, limit);
      SavingIs(appended, ops, limit);
      SavingClear(appended, ops, limit);
      assert BringClash(appended, Saving(ops), limit);
    } else {
      StepSound(k, Change(Append(id), Saved), limit);
      forall more | ClearFrom(appended, more, limit) ensures !BringClash(appended, more, limit) {
        AfterSound(appended, more, limit);
      }
    }
  }

  /* ---- The operations are those of the journal ---- */

  /** Accepting a frame with rewrites that succeed is an intake and, where the rule allows, a start. */
  lemma AcceptIs(t: Track, e: CommandEnvelope, limit: nat)
    requires LedgerInvariants.CommandInv(t.ledger, limit) && ValidCommand(e)
    ensures Accept(Store(t.ledger, t.ledger), e, e.command.SessionCancel?, limit, Saved, Saved).0.memory
         == (if Prepare(t.ledger, e, limit).Ok? then Ops(t, [Intake(e)] + [Start(e.commandId)], limit).ledger
             else t.ledger)
  {
    var u := Next(t, Intake(e), limit);
    OneOp(t, Intake(e), limit);
    OneOp(u, Start(e.commandId), limit);
    OpsSplit(t, [Intake(e)], [Start(e.commandId)], limit);
    if Prepare(t.ledger, e, limit).Ok? {
      LedgerInvariants.PrepareKeeps(t.ledger, e, limit);
      LedgerInvariants.PrepareEntry(t.ledger, e, limit);
    }
  }

  /** The end of a command, as far as commands go, is its close. */
  lemma FinishIs(l: Ledger, c: Name, outcome: Outcome, events: seq<Event>, now: string)
    requires Started(l, c)
    ensures Finish(l, c, outcome, events, now).commands == Settle(l, c, outcome).commands
    ensures Finish(l, c, outcome, events, now).sessions == Settle(l, c, outcome).sessions
  {
    LedgerInvariants.AddAllFrame(Settle(l, c, outcome), FinishEvents(l, c, outcome, events, now));
  }
}
