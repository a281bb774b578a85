/** The command half of the stored journal: identity checks, intake, dispatch marks,
    completion boundaries. Each method is the source's vector code, and its contract is the
    ledger operation it carries out. */
module FileCommands {
  import opened Protocol
  import opened DeliveryLedger
  import opened JournalFile
  import opened DurableStore
  import LedgerInvariants

  predicate RecordConflict(r: CommandRecord, e: CommandEnvelope, digest: Digest, messageId: Option<Name>) {
    var sameId := r.envelope.commandId == e.commandId;
    var sameSequence := r.envelope.sessionId == e.sessionId && r.envelope.commandSeq == e.commandSeq;
    var sameMessage := messageId.Some? && r.messageId == messageId && r.envelope.sessionId == e.sessionId;
    && (sameId || sameSequence || sameMessage)
    && (r.envelope.sessionId != e.sessionId || r.envelope.commandSeq != e.commandSeq || r.digest != digest
        || (sameId && r.envelope.command != e.command))
  }

  predicate TombstoneConflict(t: CommandTombstone, e: CommandEnvelope, digest: Digest, messageId: Option<Name>) {
    var sameId := t.commandId == e.commandId;
    var sameSequence := t.sessionId == e.sessionId && t.commandSeq == e.commandSeq;
    var sameMessage := messageId.Some? && t.messageId == messageId && t.sessionId == e.sessionId;
    && (sameId || sameSequence || sameMessage)
    && (t.sessionId != e.sessionId || t.commandSeq != e.commandSeq || t.digest != digest
        || (sameMessage && t.commandId != e.commandId))
  }

  /** Find the record of a command id. */
  method FindRecord(cs: seq<CommandRecord>, id: Name) returns (r: Option<nat>)
    ensures r.Some? ==> r.value < |cs| && cs[r.value].envelope.commandId == id
    ensures r.None? <==> id !in Ids(cs)
  {
    var i := 0;
    while i < |cs|
      invariant i <= |cs|
      invariant forall k | 0 <= k < i :: cs[k].envelope.commandId != id
    {
      if cs[i].envelope.commandId == id {
        assert cs[i] in cs;
        return Some(i);
      }
      i := i + 1;
    }
    return None;
  }

  method FindTombstone(ts: seq<CommandTombstone>, id: Name) returns (r: Option<nat>)
    ensures r.Some? ==> r.value < |ts| && ts[r.value].commandId == id
    ensures r.None? <==> id !in TombIds(ts)
  {
    var i := 0;
    while i < |ts|
      invariant i <= |ts|
      invariant forall k | 0 <= k < i :: ts[k].commandId != id
    {
      if ts[i].commandId == id {
        assert ts[i] in ts;
        return Some(i);
      }
      i := i + 1;
    }
    return None;
  }

  /** The stored identities, records and tombstones together, conflict with an envelope
      exactly when the full history does: compaction has not weakened the check. */
  method ValidateCommandIdentity(
    cs: seq<CommandRecord>, ts: seq<CommandTombstone>, e: CommandEnvelope, ghost l: Ledger)
    returns (ok: bool)
    requires CommandsRepresent(cs, ts, l) && LedgerInvariants.Keyed(l)
    ensures ok <==> !Conflicts(l, e)
  {
    var digest, messageId := OfCommand(e), MessageIdOf(e.command);
    var i := 0;
    while i < |cs|
      invariant i <= |cs|
      invariant forall k | 0 <= k < i :: !Clash(l, cs[k].envelope.commandId, e)
    {
      assert RecordFits(cs[i], l);
      if RecordConflict(cs[i], e, digest, messageId) {
        assert Clash(l, cs[i].envelope.commandId, e);
        return false;
      }
      i := i + 1;
    }
    i := 0;
    while i < |ts|
      invariant i <= |ts|
      invariant forall k | 0 <= k < i :: !Clash(l, ts[k].commandId, e)
    {
      assert TombstoneFits(ts[i], l);
      if TombstoneConflict(ts[i], e, digest, messageId) {
        assert Clash(l, ts[i].commandId, e);
        return false;
      }
      i := i + 1;
    }
    forall id | id in l.commands ensures !Clash(l, id, e) {
      if id in Ids(cs) {
        var r :| r in cs && r.envelope.commandId == id;
        var k :| 0 <= k < |cs| && cs[k] == r;
      } else {
        var t :| t in ts && t.commandId == id;
        var k :| 0 <= k < |ts| && ts[k] == t;
      }
    }
    return true;
  }

  predicate Clash(l: Ledger, id: Name, e: CommandEnvelope) {
    id in l.commands && Related(l.commands[id].envelope, e) && l.commands[id].envelope != e
  }

  /** Ids of the records that wait beyond `expected`. */
  function WaitingIn(cs: seq<CommandRecord>, s: Name, expected: nat): set<Name> {
    set r | r in cs && r.envelope.sessionId == s && r.envelope.commandSeq > expected && !r.state.Terminal?
      :: r.envelope.commandId
  }

  /** A held id is either on record or buried, and a buried command is finished. */
  lemma OpenIsRecorded(cs: seq<CommandRecord>, ts: seq<CommandTombstone>, l: Ledger)
    requires CommandsRepresent(cs, ts, l)
    ensures forall id | id in l.commands && !l.commands[id].status.Terminal? :: id in Ids(cs)
    ensures forall r | r in cs :: RecordFits(r, l)
    ensures forall t | t in ts :: TombstoneFits(t, l)
    ensures forall id | id in TombIds(ts) ::
      id in l.commands && l.commands[id].envelope.commandSeq <= Processed(l, l.commands[id].envelope.sessionId)
  {
    forall id | id in TombIds(ts)
      ensures id in l.commands && l.commands[id].status.Terminal?
      ensures l.commands[id].envelope.commandSeq <= Processed(l, l.commands[id].envelope.sessionId)
    {
      var t :| t in ts && t.commandId == id;
      assert TombstoneFits(t, l);
    }
  }

  lemma WaitingMatches(cs: seq<CommandRecord>, ts: seq<CommandTombstone>, l: Ledger, s: Name)
    requires CommandsRepresent(cs, ts, l)
    ensures WaitingIn(cs, s, Expected(l, s)) == Waiting(l, s)
  {
    OpenIsRecorded(cs, ts, l);
    forall id | id in Waiting(l, s) ensures id in WaitingIn(cs, s, Expected(l, s)) {
      var r :| r in cs && r.envelope.commandId == id;
      assert RecordFits(r, l);
    }
  }

  method CountWaiting(cs: seq<CommandRecord>, s: Name, expected: nat) returns (count: nat)
    requires forall i, j | 0 <= i < j < |cs| :: cs[i].envelope.commandId != cs[j].envelope.commandId
    ensures count == |WaitingIn(cs, s, expected)|
  {
    count := 0;
    var i := 0;
    while i < |cs|
      invariant i <= |cs|
      invariant count == |WaitingIn(cs[..i], s, expected)|
    {
      var r := cs[i];
      assert cs[..i + 1] == cs[..i] + [r];
      if r.envelope.sessionId == s && r.envelope.commandSeq > expected && !r.state.Terminal? {
        assert WaitingIn(cs[..i + 1], s, expected) == WaitingIn(cs[..i], s, expected) + {r.envelope.commandId};
        count := count + 1;
      } else {
        assert WaitingIn(cs[..i + 1], s, expected) == WaitingIn(cs[..i], s, expected);
      }
      i := i + 1;
    }
    assert cs[..i] == cs;
  }

  /* ---- Intake ---- */

  datatype PreparedFile = PreparedFile(file: File, record: CommandRecord, duplicate: bool, buffered: bool)

  /** The record a tombstone is reported as: the command itself is gone, so a placeholder with a
      fresh time stands in for it. */
  function TombstoneRecord(t: CommandTombstone, now: string): CommandRecord {
    CommandRecord(CommandEnvelope(t.commandId, t.sessionId, t.commandSeq, now, SessionResume),
                  t.digest, t.messageId, CommandState.Terminal, Some(t.outcome))
  }

  function NewRecord(e: CommandEnvelope): CommandRecord {
    CommandRecord(e, OfCommand(e), MessageIdOf(e.command), CommandState.Received, None)
  }

  lemma AddRecord(cs: seq<CommandRecord>, ts: seq<CommandTombstone>, l: Ledger, e: CommandEnvelope)
    requires CommandsRepresent(cs, ts, l) && e.commandId !in l.commands
    ensures CommandsRepresent(
      cs + [NewRecord(e)], ts, l.(commands := l.commands[e.commandId := CommandEntry(e, Status.Received)]))
  {
    var r := NewRecord(e);
    assert Ids(cs + [r]) == Ids(cs) + {e.commandId};
    forall i | 0 <= i < |cs| ensures cs[i].envelope.commandId != e.commandId {
      assert RecordFits(cs[i], l);
    }
  }

  lemma IdsReplaced(cs: seq<CommandRecord>, k: nat, r: CommandRecord)
    requires k < |cs| && r.envelope == cs[k].envelope
    ensures Ids(cs[k := r]) == Ids(cs)
  {
    var ds := cs[k := r];
    forall x | x in Ids(cs) ensures x in Ids(ds) {
      var i :| 0 <= i < |cs| && cs[i].envelope.commandId == x;
      assert ds[i] in ds;
    }
    forall x | x in Ids(ds) ensures x in Ids(cs) {
      var i :| 0 <= i < |ds| && ds[i].envelope.commandId == x;
      assert cs[i] in cs;
    }
  }

  lemma ReplaceRecord(cs: seq<CommandRecord>, ts: seq<CommandTombstone>, l: Ledger, k: nat, r: CommandRecord)
    requires CommandsRepresent(cs, ts, l) && k < |cs|
    requires r.envelope == cs[k].envelope && r.digest == cs[k].digest && r.messageId == cs[k].messageId
    requires r.state.Terminal? <==> r.outcome.Some?
    ensures CommandsRepresent(
      cs[k := r], ts, l.(commands := l.commands[r.envelope.commandId := CommandEntry(r.envelope, StatusOf(r))]))
  {
    var id := r.envelope.commandId;
    var m := l.(commands := l.commands[id := CommandEntry(r.envelope, StatusOf(r))]);
    assert cs[k] in cs && id in Ids(cs);
    IdsReplaced(cs, k, r);
    forall j | 0 <= j < |ts| ensures TombstoneFits(ts[j], m) {
      assert ts[j] in ts && ts[j].commandId != id;
      assert TombstoneFits(ts[j], l);
    }
    var ds := cs[k := r];
    forall i | 0 <= i < |ds| ensures RecordFits(ds[i], m) {
      assert RecordFits(cs[i], l);
    }
  }

  /** Moving a boundary forward, or touching what sessions say about events, leaves the
      command vectors standing for the same commands. */
  lemma CommandsFrame(cs: seq<CommandRecord>, ts: seq<CommandTombstone>, l: Ledger, r: Ledger)
    requires CommandsRepresent(cs, ts, l) && r.commands == l.commands
    requires forall s :: Processed(l, s) <= Processed(r, s)
    ensures CommandsRepresent(cs, ts, r)
  {
    assert forall i | 0 <= i < |cs| :: RecordFits(cs[i], l) ==> RecordFits(cs[i], r);
    assert forall j | 0 <= j < |ts| :: TombstoneFits(ts[j], l) ==> TombstoneFits(ts[j], r);
  }

  lemma EventsFrame(es: seq<EventRecord>, ts: seq<EventTombstone>, l: Ledger, r: Ledger)
    requires EventsRepresent(es, ts, l) && r.events == l.events
    requires forall s :: SessionOf(r, s).acked == SessionOf(l, s).acked
    ensures EventsRepresent(es, ts, r)
  {
    assert forall i | 0 <= i < |es| :: EventFits(es[i], l) ==> EventFits(es[i], r);
    assert forall j | 0 <= j < |ts| :: EventTombstoneFits(ts[j], l) ==> EventTombstoneFits(ts[j], r);
  }

  lemma BoundaryRead(f: File, l: Ledger, s: Name)
    requires SessionsRepresent(f.sessions, l.sessions)
    ensures SessionEntry(f.sessions, s).processedThrough == Processed(l, s)
    ensures SessionFits(SessionEntry(f.sessions, s), SessionOf(l, s))
  {
    assert AckSet(0, []) == {};
  }

  /** The stored file's answer to an intake is the ledger's answer. */
  ghost predicate Answers(r: Result<PreparedFile>, p: Result<Prepared>) {
    match p
    case Err(error) => r == Err(error)
    case Ok(prepared) =>
      && r.Ok?
      && Represents(r.value.file, prepared.ledger)
      && AckOf(r.value.record.envelope) == AckOf(prepared.entry.envelope)
      && StatusOf(r.value.record) == prepared.entry.status
      && (r.value.record.state.Received? ==> r.value.record.envelope == prepared.entry.envelope)
      && r.value.duplicate == prepared.duplicate && r.value.buffered == prepared.buffered
  }

  /** Command intake on the stored file answers exactly what the full history would: the same
      error, or the same entry, duplicate flag and buffering decision. */
  method PrepareCommand(f: File, e: CommandEnvelope, limit: nat, now: string, ghost l: Ledger)
    returns (r: Result<PreparedFile>)
    requires Represents(f, l) && LedgerInvariants.Keyed(l)
    ensures Answers(r, Prepare(l, e, limit))
  {
    var ok := ValidateCommandIdentity(f.commands, f.commandTombstones, e, l);
    if !ok {
      return Err(IdentityConflict);
    }
    var known := FindRecord(f.commands, e.commandId);
    BoundaryRead(f, l, e.sessionId);
    var expected := SessionEntry(f.sessions, e.sessionId).processedThrough + 1;
    if known.Some? {
      var record := f.commands[known.value];
      KnownRecord(f, l, e, limit, known.value);
      return Ok(PreparedFile(f, record, true, record.envelope.commandSeq > expected));
    }
    r := PrepareUnrecorded(f, e, limit, now, expected, l);
  }

  method PrepareUnrecorded(f: File, e: CommandEnvelope, limit: nat, now: string, expected: nat, ghost l: Ledger)
    returns (r: Result<PreparedFile>)
    requires Represents(f, l) && LedgerInvariants.Keyed(l) && !Conflicts(l, e)
    requires expected == Expected(l, e.sessionId) && e.commandId !in Ids(f.commands)
    ensures Answers(r, Prepare(l, e, limit))
  {
    var buried := FindTombstone(f.commandTombstones, e.commandId);
    if buried.Some? {
      KnownTombstone(f, l, e, limit, now, buried.value);
      return Ok(PreparedFile(f, TombstoneRecord(f.commandTombstones[buried.value], now), true, false));
    }
    r := AdmitNew(f, e, limit, expected, l);
  }

  method AdmitNew(f: File, e: CommandEnvelope, limit: nat, expected: nat, ghost l: Ledger)
    returns (r: Result<PreparedFile>)
    requires Represents(f, l) && !Conflicts(l, e)
    requires expected == Expected(l, e.sessionId) && e.commandId !in l.commands
    ensures Answers(r, Prepare(l, e, limit))
  {
    if e.commandSeq > expected {
      var pending := CountWaiting(f.commands, e.sessionId, expected);
      WaitingMatches(f.commands, f.commandTombstones, l, e.sessionId);
      if pending >= limit {
        return Err(GapOverflow(e.sessionId, limit));
      }
    } else if e.commandSeq < expected {
      return Err(IdentityConflict);
    }
    NewRecordRepresents(f, l, e);
    return Ok(PreparedFile(f.(commands := f.commands + [NewRecord(e)]), NewRecord(e), false, e.commandSeq > expected));
  }

  lemma KnownRecord(f: File, l: Ledger, e: CommandEnvelope, limit: nat, k: nat)
    requires CommandsRepresent(f.commands, f.commandTombstones, l) && !Conflicts(l, e)
    requires k < |f.commands| && f.commands[k].envelope.commandId == e.commandId
    ensures Prepare(l, e, limit)
         == Ok(Prepared(l, CommandEntry(f.commands[k].envelope, StatusOf(f.commands[k])), true,
                        f.commands[k].envelope.commandSeq > Expected(l, e.sessionId)))
  {
    assert RecordFits(f.commands[k], l);
    assert Related(l.commands[e.commandId].envelope, e);
  }

  lemma KnownTombstone(f: File, l: Ledger, e: CommandEnvelope, limit: nat, now: string, k: nat)
    requires CommandsRepresent(f.commands, f.commandTombstones, l) && !Conflicts(l, e) && LedgerInvariants.Keyed(l)
    requires k < |f.commandTombstones| && f.commandTombstones[k].commandId == e.commandId
    ensures var r := TombstoneRecord(f.commandTombstones[k], now);
      && e.commandId in l.commands
      && AckOf(r.envelope) == AckOf(l.commands[e.commandId].envelope)
      && StatusOf(r) == l.commands[e.commandId].status
      && Prepare(l, e, limit) == Ok(Prepared(l, l.commands[e.commandId], true, false))
  {
    assert TombstoneFits(f.commandTombstones[k], l);
    assert Related(l.commands[e.commandId].envelope, e);
  }

  lemma NewRecordRepresents(f: File, l: Ledger, e: CommandEnvelope)
    requires Represents(f, l) && e.commandId !in l.commands
    ensures Represents(f.(commands := f.commands + [NewRecord(e)]),
                       l.(commands := l.commands[e.commandId := CommandEntry(e, Status.Received)]))
  {
    var m := l.(commands := l.commands[e.commandId := CommandEntry(e, Status.Received)]);
    AddRecord(f.commands, f.commandTombstones, l, e);
    EventsFrame(f.events, f.eventTombstones, l, m);
  }

  /** Whether an earlier command of the session is under way. */
  method HasPriorDispatchStarted(f: File, e: CommandEnvelope, ghost l: Ledger) returns (found: bool)
    requires Represents(f, l)
    ensures found <==> PriorDispatch(l, e)
  {
    OpenIsRecorded(f.commands, f.commandTombstones, l);
    found := exists r | r in f.commands ::
      r.envelope.sessionId == e.sessionId && r.envelope.commandSeq < e.commandSeq && r.state.DispatchStarted?;
    if PriorDispatch(l, e) {
      var id :| id in l.commands && l.commands[id].envelope.sessionId == e.sessionId
                && l.commands[id].envelope.commandSeq < e.commandSeq && l.commands[id].status.DispatchStarted?;
      var r :| r in f.commands && r.envelope.commandId == id;
      assert RecordFits(r, l);
    }
  }

  predicate ReceivedAt(r: CommandRecord, s: Name, n: nat) {
    r.envelope.sessionId == s && r.envelope.commandSeq == n && r.state.Received?
  }

  method FindReceived(cs: seq<CommandRecord>, s: Name, n: nat) returns (k: Option<nat>)
    ensures k.Some? ==> k.value < |cs| && ReceivedAt(cs[k.value], s, n)
    ensures k.None? ==> forall r | r in cs :: !ReceivedAt(r, s, n)
  {
    var i := 0;
    while i < |cs|
      invariant i <= |cs| && forall j | 0 <= j < i :: !ReceivedAt(cs[j], s, n)
    {
      if ReceivedAt(cs[i], s, n) {
        return Some(i);
      }
      i := i + 1;
    }
    return None;
  }

  /** Envelopes of the records whose dispatch has started, in recorded order. */
  method StartedEnvelopes(cs: seq<CommandRecord>) returns (es: seq<CommandEnvelope>)
    ensures forall e :: e in es <==> exists r | r in cs :: r.state.DispatchStarted? && r.envelope == e
    ensures DistinctRecords(cs) ==> forall i, k | 0 <= i < k < |es| :: es[i].commandId != es[k].commandId
  {
    es := [];
    var i := 0;
    while i < |cs|
      invariant i <= |cs|
      invariant forall e :: e in es <==> exists r | r in cs[..i] :: r.state.DispatchStarted? && r.envelope == e
      invariant DistinctRecords(cs) ==> forall j, k | 0 <= j < k < |es| :: es[j].commandId != es[k].commandId
    {
      assert cs[..i + 1] == cs[..i] + [cs[i]];
      if cs[i].state.DispatchStarted? {
        forall k | 0 <= k < |es| && DistinctRecords(cs) ensures es[k].commandId != cs[i].envelope.commandId {
          assert es[k] in es;
        }
        es := es + [cs[i].envelope];
      }
      i := i + 1;
    }
    assert cs[..i] == cs;
  }

  lemma ReceivedRecorded(cs: seq<CommandRecord>, ts: seq<CommandTombstone>, l: Ledger, s: Name)
    requires CommandsRepresent(cs, ts, l)
    ensures forall id | Ready(l, id, s) :: exists r | r in cs :: ReceivedAt(r, s, Expected(l, s))
  {
    OpenIsRecorded(cs, ts, l);
    forall id | Ready(l, id, s) ensures exists r | r in cs :: ReceivedAt(r, s, Expected(l, s)) {
      var r :| r in cs && r.envelope.commandId == id;
      assert RecordFits(r, l) && ReceivedAt(r, s, Expected(l, s));
    }
  }

  /** Mark a received command as started; anything else is left as it is and reported. */
  method MarkDispatchStarted(f: File, id: Name, ghost l: Ledger) returns (r: Result<(File, bool)>)
    requires Represents(f, l)
    ensures r.Err? ==> r.error == IdentityConflict && id !in Ids(f.commands)
    ensures r.Ok? ==> id in l.commands && r.value.1 == l.commands[id].status.Received?
    ensures r.Ok? ==> Represents(r.value.0, if r.value.1 then MarkStarted(l, id) else l)
    ensures id in l.commands && l.commands[id].status.Received? ==> r.Ok?
  {
    OpenIsRecorded(f.commands, f.commandTombstones, l);
    var known := FindRecord(f.commands, id);
    if known.None? {
      return Err(IdentityConflict);
    }
    var record := f.commands[known.value];
    assert RecordFits(record, l);
    if !record.state.Received? {
      return Ok((f, false));
    }
    var started := record.(state := CommandState.DispatchStarted);
    ReplaceRecord(f.commands, f.commandTombstones, l, known.value, started);
    EventsFrame(f.events, f.eventTombstones, l, MarkStarted(l, id));
    return Ok((f.(commands := f.commands[known.value := started]), true));
  }

  /* ---- Completion ---- */

  lemma {:induction false} AdvanceUnique(l: Ledger, s: Name, p: nat, q: nat)
    requires p <= q && (forall n | p < n <= q :: TerminalAt(l, s, n)) && !TerminalAt(l, s, q + 1)
    ensures Advance(l, s, p) == q
  {
    var m := Advance(l, s, p);
    assert !TerminalAt(l, s, q + 1) && !TerminalAt(l, s, m + 1);
  }

  lemma TerminalRecorded(cs: seq<CommandRecord>, ts: seq<CommandTombstone>, l: Ledger, s: Name, n: nat)
    requires CommandsRepresent(cs, ts, l) && n > Processed(l, s)
    ensures (exists r | r in cs :: r.envelope.sessionId == s && r.envelope.commandSeq == n && r.state.Terminal?)
       <==> TerminalAt(l, s, n)
  {
    OpenIsRecorded(cs, ts, l);
    if TerminalAt(l, s, n) {
      var id :| InSlot(l, id, s, n) && l.commands[id].status.Terminal?;
      assert id in Ids(cs);
      var r :| r in cs && r.envelope.commandId == id;
      assert RecordFits(r, l);
    }
    if r :| r in cs && r.envelope.sessionId == s && r.envelope.commandSeq == n && r.state.Terminal? {
      assert RecordFits(r, l) && InSlot(l, r.envelope.commandId, s, n);
    }
  }

  /** Run the boundary of a session over every terminal record that follows it. The loop sees
      only the records compaction left, and still reaches the longest terminal prefix. */
  method AdvanceProcessed(cs: seq<CommandRecord>, ts: seq<CommandTombstone>, s: Name, p: nat, ghost l: Ledger)
    returns (q: nat)
    requires CommandsRepresent(cs, ts, l) && p == Processed(l, s)
    ensures q == Advance(l, s, p)
  {
    q := p;
    while true
      invariant p <= q && forall n | p < n <= q :: TerminalAt(l, s, n)
      decreases Above(l, q)
    {
      var terminal := exists r | r in cs ::
        r.envelope.sessionId == s && r.envelope.commandSeq == q + 1 && r.state.Terminal?;
      TerminalRecorded(cs, ts, l, s, q + 1);
      if !terminal {
        break;
      }
      ghost var id :| InSlot(l, id, s, q + 1);
      assert id in Above(l, q) && id !in Above(l, q + 1);
      q := q + 1;
    }
    AdvanceUnique(l, s, p, q);
  }

  lemma ClosedRecord(f: File, l: Ledger, k: nat, outcome: Outcome)
    requires Represents(f, l) && LedgerInvariants.Keyed(l) && k < |f.commands|
    ensures var r := f.commands[k].(state := CommandState.Terminal, outcome := Some(outcome));
      var id := r.envelope.commandId;
      && id in l.commands && l.commands[id].envelope == r.envelope
      && CommandsRepresent(f.commands[k := r], f.commandTombstones,
                           l.(commands := l.commands[id := l.commands[id].(status := Status.Terminal(outcome))]))
  {
    assert RecordFits(f.commands[k], l);
    ReplaceRecord(f.commands, f.commandTombstones, l, k,
                  f.commands[k].(state := CommandState.Terminal, outcome := Some(outcome)));
  }

  lemma BoundaryMoved(f: File, l: Ledger, closed: Ledger, commands: seq<CommandRecord>, s: Name, q: nat)
    requires Represents(f, l) && CommandsRepresent(commands, f.commandTombstones, closed)
    requires closed.sessions == l.sessions && closed.events == l.events && q >= Processed(l, s)
    ensures Represents(
      f.(commands := commands,
         sessions := f.sessions[s := SessionEntry(f.sessions, s).(processedThrough := q)]),
      WithProcessed(closed, s, q))
  {
    BoundaryRead(f, l, s);
    var settled := WithProcessed(closed, s, q);
    CommandsFrame(commands, f.commandTombstones, closed, settled);
    EventsFrame(f.events, f.eventTombstones, l, settled);
  }

  /** Commit a terminal state and move the session's boundary. The callers supply a command
      that is under way; the method itself, like the source, does not look. */
  method SettleCommand(f: File, id: Name, outcome: Outcome, ghost l: Ledger) returns (g: File, s: Name)
    requires Represents(f, l) && LedgerInvariants.Keyed(l)
    requires id in l.commands && l.commands[id].status.DispatchStarted?
    ensures s == l.commands[id].envelope.sessionId
    ensures Represents(g, Settle(l, id, outcome)) && g.events == f.events && g.eventTombstones == f.eventTombstones
  {
    OpenIsRecorded(f.commands, f.commandTombstones, l);
    var known := FindRecord(f.commands, id);
    var record := f.commands[known.value];
    s := record.envelope.sessionId;
    ClosedRecord(f, l, known.value, outcome);
    var commands := f.commands[known.value := record.(state := CommandState.Terminal, outcome := Some(outcome))];
    ghost var closed := l.(commands := l.commands[id := l.commands[id].(status := Status.Terminal(outcome))]);
    BoundaryRead(f, l, s);
    var entry := SessionEntry(f.sessions, s);
    var q := AdvanceProcessed(commands, f.commandTombstones, s, entry.processedThrough, closed);
    g := f.(commands := commands, sessions := f.sessions[s := entry.(processedThrough := q)]);
    BoundaryMoved(f, l, closed, commands, s, q);
  }

  /* ---- Compaction ---- */

  predicate Compactable(r: CommandRecord, s: Name, processed: nat) {
    r.envelope.sessionId == s && r.state.Terminal? && r.envelope.commandSeq <= processed
  }

  function Kept(cs: seq<CommandRecord>, s: Name, processed: nat): seq<CommandRecord> {
    if cs == [] then []
    else
      var r := cs[|cs| - 1];
      Kept(cs[..|cs| - 1], s, processed) + if Compactable(r, s, processed) then [] else [r]
  }

  function TombstoneOf(r: CommandRecord): CommandTombstone {
    CommandTombstone(r.envelope.commandId, r.envelope.sessionId, r.envelope.commandSeq,
                     r.digest, r.messageId, OutcomeOf(r))
  }

  function Buried(cs: seq<CommandRecord>, s: Name, processed: nat): seq<CommandTombstone> {
    if cs == [] then []
    else
      var r := cs[|cs| - 1];
      Buried(cs[..|cs| - 1], s, processed) + if Compactable(r, s, processed) then [TombstoneOf(r)] else []
  }

  method CompactCommands(cs: seq<CommandRecord>, ts: seq<CommandTombstone>, s: Name, processed: nat)
    returns (retained: seq<CommandRecord>, tombstones: seq<CommandTombstone>)
    ensures retained == Kept(cs, s, processed)
    ensures tombstones == ts + Buried(cs, s, processed)
    ensures forall r :: r in retained <==>
      r in cs && !(r.envelope.sessionId == s && r.state.Terminal? && r.envelope.commandSeq <= processed)
  {
    KeptContents(cs, s, processed);
    retained, tombstones := [], ts;
    var i := 0;
    while i < |cs|
      invariant i <= |cs|
      invariant retained == Kept(cs[..i], s, processed)
      invariant tombstones == ts + Buried(cs[..i], s, processed)
    {
      assert cs[..i + 1][..i] == cs[..i];
      if Compactable(cs[i], s, processed) {
        tombstones := tombstones + [TombstoneOf(cs[i])];
      } else {
        retained := retained + [cs[i]];
      }
      i := i + 1;
    }
    assert cs[..i] == cs;
  }

  ghost predicate DistinctRecords(cs: seq<CommandRecord>) {
    forall i, j | 0 <= i < j < |cs| :: cs[i].envelope.commandId != cs[j].envelope.commandId
  }

  ghost predicate DistinctTombstones(ts: seq<CommandTombstone>) {
    forall i, j | 0 <= i < j < |ts| :: ts[i].commandId != ts[j].commandId
  }

  lemma {:induction false} KeptContents(cs: seq<CommandRecord>, s: Name, processed: nat)
    ensures forall r :: r in Kept(cs, s, processed) <==> r in cs && !Compactable(r, s, processed)
    ensures DistinctRecords(cs) ==> DistinctRecords(Kept(cs, s, processed))
  {
    if cs != [] {
      var n := |cs| - 1;
      KeptContents(cs[..n], s, processed);
      assert cs == cs[..n] + [cs[n]];
      assert DistinctRecords(cs) ==> forall r | r in cs[..n] :: r.envelope.commandId != cs[n].envelope.commandId;
    }
  }

  lemma {:induction false} BuriedContents(cs: seq<CommandRecord>, s: Name, processed: nat)
    requires DistinctRecords(cs)
    ensures forall t | t in Buried(cs, s, processed) ::
      exists r | r in cs && Compactable(r, s, processed) :: t == TombstoneOf(r)
    ensures forall r | r in cs && Compactable(r, s, processed) :: TombstoneOf(r) in Buried(cs, s, processed)
    ensures DistinctTombstones(Buried(cs, s, processed))
  {
    if cs != [] {
      var n := |cs| - 1;
      BuriedContents(cs[..n], s, processed);
      assert cs == cs[..n] + [cs[n]];
      assert forall r | r in cs[..n] :: r.envelope.commandId != cs[n].envelope.commandId;
      assert forall t | t in Buried(cs[..n], s, processed) :: t.commandId != cs[n].envelope.commandId;
    }
  }

  lemma CompactedIds(cs: seq<CommandRecord>, s: Name, processed: nat)
    requires DistinctRecords(cs)
    ensures Ids(Kept(cs, s, processed)) !! TombIds(Buried(cs, s, processed))
    ensures Ids(Kept(cs, s, processed)) + TombIds(Buried(cs, s, processed)) == Ids(cs)
  {
    KeptContents(cs, s, processed);
    BuriedContents(cs, s, processed);
    forall r, q | r in cs && q in cs && r.envelope.commandId == q.envelope.commandId ensures r == q {
      var i :| 0 <= i < |cs| && cs[i] == r;
      var j :| 0 <= j < |cs| && cs[j] == q;
    }
    forall id | id in Ids(cs) ensures id in Ids(Kept(cs, s, processed)) + TombIds(Buried(cs, s, processed)) {
      var r :| r in cs && r.envelope.commandId == id;
      if Compactable(r, s, processed) {
        assert TombstoneOf(r) in Buried(cs, s, processed);
      }
    }
  }

  /** Compaction of commands is invisible to the ledger: what it buries is still held, finished
      with the same outcome and pinned by the same digest. */
  lemma CompactionKeepsCommands(cs: seq<CommandRecord>, ts: seq<CommandTombstone>, l: Ledger, s: Name)
    requires CommandsRepresent(cs, ts, l)
    ensures CommandsRepresent(Kept(cs, s, Processed(l, s)), ts + Buried(cs, s, Processed(l, s)), l)
  {
    var p := Processed(l, s);
    var ks, bs := Kept(cs, s, p), Buried(cs, s, p);
    KeptContents(cs, s, p);
    BuriedContents(cs, s, p);
    CompactedIds(cs, s, p);
    OpenIsRecorded(cs, ts, l);
    forall t | t in bs ensures TombstoneFits(t, l) {
      var r :| r in cs && Compactable(r, s, p) && t == TombstoneOf(r);
      assert RecordFits(r, l);
    }
    assert TombIds(ts + bs) == TombIds(ts) + TombIds(bs);
    forall i, j | 0 <= i < |ts| && 0 <= j < |bs| ensures ts[i].commandId != bs[j].commandId {
      assert ts[i].commandId in TombIds(ts) && bs[j].commandId in TombIds(bs);
    }
  }

  /** Places held by records and by tombstones, counted with repetition. */
  function Holders(cs: seq<CommandRecord>, ts: seq<CommandTombstone>, s: Name, n: nat): nat {
    |set i | 0 <= i < |cs| && cs[i].envelope.sessionId == s && cs[i].envelope.commandSeq == n|
    + |set j | 0 <= j < |ts| && ts[j].sessionId == s && ts[j].commandSeq == n|
  }

  lemma OneRecord(cs: seq<CommandRecord>, ts: seq<CommandTombstone>, l: Ledger, id: Name, s: Name, n: nat)
    requires CommandsRepresent(cs, ts, l) && LedgerInvariants.Keyed(l) && InSlot(l, id, s, n) && id in Ids(cs)
    ensures Holders(cs, ts, s, n) == 1
  {
    var k :| 0 <= k < |cs| && cs[k].envelope.commandId == id;
    assert RecordFits(cs[k], l);
    var a := set i | 0 <= i < |cs| && cs[i].envelope.sessionId == s && cs[i].envelope.commandSeq == n;
    var b := set j | 0 <= j < |ts| && ts[j].sessionId == s && ts[j].commandSeq == n;
    forall i | i in a ensures i == k {
      assert RecordFits(cs[i], l);
      LedgerInvariants.SlotUnique(l, id, cs[i].envelope.commandId, s, n);
    }
    assert a == {k};
    forall j | 0 <= j < |ts| ensures j !in b {
      assert ts[j] in ts && ts[j].commandId in TombIds(ts) && TombstoneFits(ts[j], l);
      assert !LedgerInvariants.SameIdentity(l.commands, ts[j].commandId, id);
    }
    assert b == {};
  }

  lemma OneTombstone(cs: seq<CommandRecord>, ts: seq<CommandTombstone>, l: Ledger, id: Name, s: Name, n: nat)
    requires CommandsRepresent(cs, ts, l) && LedgerInvariants.Keyed(l) && InSlot(l, id, s, n) && id in TombIds(ts)
    ensures Holders(cs, ts, s, n) == 1
  {
    var k :| 0 <= k < |ts| && ts[k].commandId == id;
    assert TombstoneFits(ts[k], l);
    var a := set i | 0 <= i < |cs| && cs[i].envelope.sessionId == s && cs[i].envelope.commandSeq == n;
    var b := set j | 0 <= j < |ts| && ts[j].sessionId == s && ts[j].commandSeq == n;
    forall j | j in b ensures j == k {
      assert TombstoneFits(ts[j], l);
      LedgerInvariants.SlotUnique(l, id, ts[j].commandId, s, n);
    }
    assert b == {k};
    forall i | 0 <= i < |cs| ensures i !in a {
      assert cs[i] in cs && cs[i].envelope.commandId in Ids(cs) && RecordFits(cs[i], l);
      assert !LedgerInvariants.SameIdentity(l.commands, cs[i].envelope.commandId, id);
    }
    assert a == {};
  }

  /** Up to the boundary every place of a session is held exactly once, by a finished record or
      by a tombstone; and no tombstone lies beyond it. */
  lemma HeldExactlyOnce(f: File, l: Ledger, limit: nat, s: Name, n: nat)
    requires Represents(f, l) && LedgerInvariants.CommandInv(l, limit) && 1 <= n <= Processed(l, s)
    ensures Holders(f.commands, f.commandTombstones, s, n) == 1
    ensures forall r | r in f.commands && r.envelope.sessionId == s && r.envelope.commandSeq == n :: r.state.Terminal?
    ensures forall t | t in f.commandTombstones :: t.commandSeq <= Processed(l, t.sessionId)
  {
    var cs, ts := f.commands, f.commandTombstones;
    OpenIsRecorded(cs, ts, l);
    assert Held(l, s, n);
    var id :| InSlot(l, id, s, n);
    if id in Ids(cs) {
      OneRecord(cs, ts, l, id, s, n);
    } else {
      OneTombstone(cs, ts, l, id, s, n);
    }
    forall r | r in cs && r.envelope.sessionId == s && r.envelope.commandSeq == n ensures r.state.Terminal? {
      assert RecordFits(r, l);
    }
    forall t | t in ts ensures t.commandSeq <= Processed(l, t.sessionId) {
      assert TombstoneFits(t, l);
    }
  }
}
