/** The event half of the stored journal: numbering, appending, acknowledgement, reconciliation,
    replay and compaction. Each method is the source's vector code, and its contract is the
    ledger operation it carries out. */
module FileEvents {
  import opened Protocol
  import opened DeliveryLedger
  import opened JournalFile
  import opened EventCursor
  import LedgerInvariants
  import FileCommands
  import Answers
  import CompletionReports

  /* ---- Numbering ---- */

  method LargestAtLeast(ns: seq<nat>, floor: nat) returns (m: nat)
    ensures m >= floor && (m == floor || m in ns) && forall n | n in ns :: n <= m
  {
    m := floor;
    var i := 0;
    while i < |ns|
      invariant i <= |ns| && m >= floor && (m == floor || m in ns)
      invariant forall n | n in ns[..i] :: n <= m
    {
      assert ns[..i + 1] == ns[..i] + [ns[i]];
      if ns[i] > m {
        m := ns[i];
      }
      i := i + 1;
    }
    assert ns[..i] == ns;
  }

  /** Sequences of a session on retained records, then on tombstones. */
  function RecordSeqs(es: seq<EventRecord>, s: Name): (r: seq<nat>)
    ensures forall n :: n in r <==> exists e | e in es :: e.envelope.sessionId == s && e.envelope.eventSeq == n
  {
    if es == [] then []
    else
      var e := es[|es| - 1];
      assert es == es[..|es| - 1] + [e];
      RecordSeqs(es[..|es| - 1], s) + if e.envelope.sessionId == s then [e.envelope.eventSeq] else []
  }

  function TombstoneSeqs(ts: seq<EventTombstone>, s: Name): (r: seq<nat>)
    ensures forall n :: n in r <==> exists t | t in ts :: t.sessionId == s && t.eventSeq == n
  {
    if ts == [] then []
    else
      var t := ts[|ts| - 1];
      assert ts == ts[..|ts| - 1] + [t];
      TombstoneSeqs(ts[..|ts| - 1], s) + if t.sessionId == s then [t.eventSeq] else []
  }

  lemma FitsAll(es: seq<EventRecord>, ts: seq<EventTombstone>, l: Ledger)
    requires EventsRepresent(es, ts, l)
    ensures forall e | e in es :: EventFits(e, l)
    ensures forall t | t in ts :: EventTombstoneFits(t, l)
  {
  }

  /** Records and tombstones together hold exactly the sequences ever allocated. */
  lemma SeqsHeld(es: seq<EventRecord>, ts: seq<EventTombstone>, l: Ledger, s: Name)
    requires EventsRepresent(es, ts, l)
    ensures forall n :: n in EventSeqs(l, s) <==> n in RecordSeqs(es, s) || n in TombstoneSeqs(ts, s)
  {
    FitsAll(es, ts, l);
    forall n | n in EventSeqs(l, s) ensures n in RecordSeqs(es, s) || n in TombstoneSeqs(ts, s) {
      var id := LedgerInvariants.SeqHolder(l, s, n);
      if id in EventIdsOf(es) {
        var e :| e in es && e.envelope.eventId == id;
      } else {
        var t :| t in ts && t.eventId == id;
      }
    }
  }

  /** Every sequence of a session that the stored journal has a trace of. */
  function StoredSeqs(f: File, s: Name): set<nat> {
    var entry := SessionEntry(f.sessions, s);
    {entry.eventAckThrough} + (set n | n in entry.eventAckSparse)
    + (set n | n in RecordSeqs(f.events, s)) + set n | n in TombstoneSeqs(f.eventTombstones, s)
  }

  ghost function StoredLast(f: File, s: Name): nat {
    MaxOf(StoredSeqs(f, s))
  }

  /** The highest of them is the highest sequence of the whole history. */
  lemma StoredLastIs(f: File, l: Ledger, s: Name)
    requires SessionsRepresent(f.sessions, l.sessions) && EventsRepresent(f.events, f.eventTombstones, l)
    ensures StoredLast(f, s) == LastEventSeq(l, s)
  {
    FileCommands.BoundaryRead(f, l, s);
    SeqsHeld(f.events, f.eventTombstones, l, s);
    var entry, m := SessionEntry(f.sessions, s), LastEventSeq(l, s);
    assert forall n :: n in EventSeqs(l, s) + SessionOf(l, s).acked <==>
      n in EventSeqs(l, s) || 1 <= n <= entry.eventAckThrough || n in entry.eventAckSparse;
    forall n | n in StoredSeqs(f, s) ensures n <= m {
      assert n == 0 || n in EventSeqs(l, s) + SessionOf(l, s).acked;
    }
    assert m == 0 || m in StoredSeqs(f, s);
    MaxIs(StoredSeqs(f, s), m);
  }

  /** The next event number is one past the highest read off watermark, sparse list, records and
      tombstones. */
  method NextEventSequence(f: File, s: Name) returns (next: nat)
    ensures next == StoredLast(f, s) + 1
  {
    var entry := SessionEntry(f.sessions, s);
    var cursor := LargestAtLeast(entry.eventAckSparse, entry.eventAckThrough);
    var recorded := LargestAtLeast(RecordSeqs(f.events, s), cursor);
    var last := LargestAtLeast(TombstoneSeqs(f.eventTombstones, s), recorded);
    MaxIs(StoredSeqs(f, s), last);
    next := last + 1;
  }

  /* ---- Appending ---- */

  function NewEvent(e: EventEnvelope): EventRecord {
    EventRecord(e, OfEvent(e), false, None)
  }

  lemma PushRecord(es: seq<EventRecord>, ts: seq<EventTombstone>, l: Ledger, e: EventEnvelope)
    requires EventsRepresent(es, ts, l) && e.eventId !in l.events
    requires e.eventSeq !in SessionOf(l, e.sessionId).acked
    ensures EventsRepresent(es + [NewEvent(e)], ts, l.(events := l.events[e.eventId := EventEntry(e, None)]))
  {
    var r := l.(events := l.events[e.eventId := EventEntry(e, None)]);
    var fs := es + [NewEvent(e)];
    assert EventIdsOf(fs) == EventIdsOf(es) + {e.eventId};
    forall i | 0 <= i < |fs| ensures EventFits(fs[i], r) {
      assert i < |es| ==> EventFits(es[i], l);
    }
    forall i | 0 <= i < |ts| ensures EventTombstoneFits(ts[i], r) {
      assert EventTombstoneFits(ts[i], l);
    }
    forall i | 0 <= i < |es| ensures es[i].envelope.eventId != e.eventId {
      assert EventFits(es[i], l);
    }
  }

  lemma PushEvent(f: File, l: Ledger, e: EventEnvelope)
    requires Represents(f, l) && e.eventId !in l.events && e.eventSeq == LastEventSeq(l, e.sessionId) + 1
    ensures Represents(f.(events := f.events + [NewEvent(e)]), AddEvents(l, [e]))
  {
    LedgerInvariants.AddOne(l, e);
    assert e.eventSeq !in SessionOf(l, e.sessionId).acked;
    PushRecord(f.events, f.eventTombstones, l, e);
    FileCommands.CommandsFrame(f.commands, f.commandTombstones, l, AddEvents(l, [e]));
  }

  function NewEvents(es: seq<EventEnvelope>): seq<EventRecord> {
    seq(|es|, i requires 0 <= i < |es| => NewEvent(es[i]))
  }

  /** The file with records for the events of `es` pushed after its own. */
  function Pushed(f: File, es: seq<EventEnvelope>): File {
    f.(events := f.events + NewEvents(es))
  }

  lemma PushedOne(f: File, es: seq<EventEnvelope>, e: EventEnvelope)
    ensures Pushed(Pushed(f, es), [e]) == Pushed(f, es + [e])
    ensures Pushed(f, [e]) == f.(events := f.events + [NewEvent(e)])
    ensures Pushed(f, []) == f
  {
    assert Pushed(f, []).events == f.events;
    assert Pushed(f, [e]).events == f.events + [NewEvent(e)];
    assert Pushed(Pushed(f, es), [e]).events == Pushed(f, es + [e]).events;
  }

  lemma PushedLast(f: File, e: EventEnvelope)
    requires e.eventSeq == StoredLast(f, e.sessionId) + 1
    ensures StoredLast(Pushed(f, [e]), e.sessionId) == e.eventSeq
  {
    PushedOne(f, [], e);
    var g, s := Pushed(f, [e]), e.sessionId;
    assert g.events[..|g.events| - 1] == f.events;
    assert RecordSeqs(g.events, s) == RecordSeqs(f.events, s) + [e.eventSeq];
    assert StoredSeqs(g, s) == StoredSeqs(f, s) + {e.eventSeq};
    MaxIs(StoredSeqs(g, s), e.eventSeq);
  }

  /** Allocate the next number of a session for a new event and record it. Nothing looks whether the id
      is held. */
  method EmitOne(f: File, id: EventId, s: Name, event: Event, now: string) returns (g: File, e: EventEnvelope)
    ensures e == EventEnvelope(id, s, StoredLast(f, s) + 1, now, event)
    ensures g == Pushed(f, [e])
    ensures StoredLast(g, s) == e.eventSeq
  {
    var sequence := NextEventSequence(f, s);
    e := EventEnvelope(id, s, sequence, now, event);
    PushedOne(f, [], e);
    PushedLast(f, e);
    g := f.(events := f.events + [NewEvent(e)]);
  }

  /** The next event of a list. */
  method EmitNext(g: File, id: EventId, s: Name, event: Event, now: string,
                  ghost f: File, ghost all: seq<EventEnvelope>, ghost i: nat)
    returns (h: File, e: EventEnvelope)
    requires i < |all| && all[i] == EventEnvelope(id, s, StoredLast(g, s) + 1, now, event)
    requires g == Pushed(f, all[..i])
    ensures e == all[i] && all[..i + 1] == all[..i] + [e]
    ensures h == Pushed(f, all[..i + 1]) && StoredLast(h, s) == e.eventSeq
  {
    h, e := EmitOne(g, id, s, event, now);
    PushedOne(f, all[..i], e);
    assert all[..i + 1] == all[..i] + [e];
  }

  /** The events of the runtime, allocated and pushed one after the other. */
  method EmitRuntimeEvents(f: File, id: Name, s: Name, events: seq<Event>, now: string, ghost all: seq<EventEnvelope>)
    returns (g: File, emitted: seq<EventEnvelope>)
    requires |events| <= |all|
    requires forall i | 0 <= i < |events| ::
      all[i] == EventEnvelope(RuntimeEvent(id, i + 1), s, StoredLast(f, s) + 1 + i, now, events[i])
    ensures emitted == all[..|events|]
    ensures g == Pushed(f, emitted) && StoredLast(g, s) == StoredLast(f, s) + |events|
  {
    g, emitted := f, [];
    assert Pushed(f, all[..0]).events == f.events;
    var i := 0;
    while i < |events|
      invariant i <= |events| && emitted == all[..i]
      invariant g == Pushed(f, all[..i]) && StoredLast(g, s) == StoredLast(f, s) + i
    {
      var e;
      g, e := EmitNext(g, RuntimeEvent(id, i + 1), s, events[i], now, f, all, i);
      emitted := emitted + [e];
      i := i + 1;
    }
  }

  /** The events of one completion: those of the runtime, and one more when the outcome is unknown. */
  method EmitEvents(f: File, id: Name, s: Name, events: seq<Event>, outcome: Outcome, now: string)
    returns (g: File, emitted: seq<EventEnvelope>)
    ensures emitted == Emitted(id, s, StoredLast(f, s), events, outcome, now)
    ensures CompletionReports.Reports(emitted, id, s, StoredLast(f, s), events, outcome, now)
    ensures g == Pushed(f, emitted)
  {
    ghost var all := Emitted(id, s, StoredLast(f, s), events, outcome, now);
    CompletionReports.EmittedReports(id, s, StoredLast(f, s), events, outcome, now);
    g, emitted := EmitRuntimeEvents(f, id, s, events, now, all);
    if outcome.Unknown? {
      var e;
      var event := SessionFailed(false, UnknownReason(outcome.reason));
      g, e := EmitNext(g, UnknownEvent(id), s, event, now, f, all, |events|);
      emitted := emitted + [e];
    }
    assert emitted == all[..|emitted|] && |emitted| == |all|;
  }

  lemma AddUnrolls(l: Ledger, all: seq<EventEnvelope>, i: nat)
    requires i < |all|
    ensures all[..i + 1] == all[..i] + [all[i]]
    ensures AddEvents(l, all[..i + 1]) == AddEvents(AddEvents(l, all[..i]), [all[i]])
  {
    assert all[..i + 1][..i] == all[..i];
    LedgerInvariants.AddOne(AddEvents(l, all[..i]), all[i]);
  }

  lemma EmitFresh(l: Ledger, s: Name, all: seq<EventEnvelope>, i: nat)
    requires i < |all| && LedgerInvariants.Continues(l, s, all)
    ensures LedgerInvariants.Continues(l, s, all[..i])
    ensures all[i].eventId !in AddEvents(l, all[..i]).events
  {
    LedgerInvariants.AddAllContents(l, all[..i]);
  }

  lemma EmitStep(l: Ledger, s: Name, all: seq<EventEnvelope>, i: nat)
    requires i < |all| && LedgerInvariants.EventBase(l) && LedgerInvariants.Continues(l, s, all)
    ensures var m := AddEvents(l, all[..i]);
      all[i].eventId !in m.events && all[i].sessionId == s && all[i].eventSeq == LastEventSeq(m, s) + 1
  {
    EmitFresh(l, s, all, i);
    LedgerInvariants.AddAllKeeps(l, s, all[..i]);
  }

  /** A run of fresh events pushed on the file stands for adding them to the history. */
  lemma {:induction false} PushAll(f: File, l: Ledger, s: Name, all: seq<EventEnvelope>, i: nat)
    requires Represents(f, l) && LedgerInvariants.EventBase(l) && LedgerInvariants.Continues(l, s, all) && i <= |all|
    ensures Represents(Pushed(f, all[..i]), AddEvents(l, all[..i]))
  {
    if i == 0 {
      assert Pushed(f, all[..0]).events == f.events;
    } else {
      PushAll(f, l, s, all, i - 1);
      AddUnrolls(l, all, i - 1);
      EmitStep(l, s, all, i - 1);
      PushedOne(f, all[..i - 1], all[i - 1]);
      PushedOne(Pushed(f, all[..i - 1]), [], all[i - 1]);
      PushEvent(Pushed(f, all[..i - 1]), AddEvents(l, all[..i - 1]), all[i - 1]);
    }
  }

  /** Commit a terminal outcome and create its events in one update. The events are pushed whatever is
      held; when their ids are free, the update is the one of the history. */
  method FinishCommand(f: File, id: Name, outcome: Outcome, events: seq<Event>, now: string, ghost l: Ledger)
    returns (g: File, emitted: seq<EventEnvelope>)
    requires Represents(f, l) && LedgerInvariants.Keyed(l) && LedgerInvariants.EventBase(l)
    requires id in l.commands && l.commands[id].status.DispatchStarted?
    ensures emitted == FinishEvents(l, id, outcome, events, now)
    ensures var s := l.commands[id].envelope.sessionId;
      CompletionReports.Reports(emitted, id, s, LastEventSeq(l, s), events, outcome, now)
    ensures g.events == Pushed(f, emitted).events && g.eventTombstones == f.eventTombstones
    ensures LedgerInvariants.Untaken(l, emitted) ==> Represents(g, Finish(l, id, outcome, events, now))
  {
    var settled, s := FileCommands.SettleCommand(f, id, outcome, l);
    ghost var m := Settle(l, id, outcome);
    LedgerInvariants.SettleEvents(l, id, outcome);
    StoredLastIs(settled, m, s);
    g, emitted := EmitEvents(settled, id, s, events, outcome, now);
    if LedgerInvariants.Untaken(l, emitted) {
      LedgerInvariants.EmittedContinues(m, id, s, events, outcome, now);
      PushAll(settled, m, s, emitted, |emitted|);
      assert emitted[..|emitted|] == emitted;
    }
  }

  /** The first record of an id. */
  predicate FirstHolds(es: seq<EventRecord>, id: EventId, k: nat) {
    k < |es| && es[k].envelope.eventId == id && forall i | 0 <= i < k :: es[i].envelope.eventId != id
  }

  method FindEvent(es: seq<EventRecord>, id: EventId) returns (r: Option<nat>)
    ensures r.Some? ==> FirstHolds(es, id, r.value)
    ensures r.None? <==> id !in EventIdsOf(es)
  {
    var i := 0;
    while i < |es|
      invariant i <= |es| && forall k | 0 <= k < i :: es[k].envelope.eventId != id
    {
      if es[i].envelope.eventId == id {
        assert es[i] in es;
        return Some(i);
      }
      i := i + 1;
    }
    return None;
  }

  method FindEventTombstone(ts: seq<EventTombstone>, id: EventId) returns (r: Option<nat>)
    ensures r.Some? ==> r.value < |ts| && ts[r.value].eventId == id
    ensures r.None? <==> id !in EventTombIds(ts)
  {
    var i := 0;
    while i < |ts|
      invariant i <= |ts| && forall k | 0 <= k < i :: ts[k].eventId != id
    {
      if ts[i].eventId == id {
        assert ts[i] in ts;
        return Some(i);
      }
      i := i + 1;
    }
    return None;
  }

  predicate EventConflict(id: EventId, s: Name, n: nat, digest: Digest, e: EventEnvelope) {
    && (id == e.eventId || (s == e.sessionId && n == e.eventSeq))
    && (s != e.sessionId || n != e.eventSeq || digest != OfEvent(e))
  }

  /** The identity check of a new event agrees with the whole history. */
  method ValidateEventIdentity(es: seq<EventRecord>, ts: seq<EventTombstone>, e: EventEnvelope, ghost l: Ledger)
    returns (ok: bool)
    requires EventsRepresent(es, ts, l)
    ensures ok <==> forall id | id in l.events ::
      var held := l.events[id].envelope; !EventConflict(id, held.sessionId, held.eventSeq, OfEvent(held), e)
  {
    FitsAll(es, ts, l);
    var clash := exists r | r in es ::
      EventConflict(r.envelope.eventId, r.envelope.sessionId, r.envelope.eventSeq, r.digest, e);
    var buried := exists t | t in ts :: EventConflict(t.eventId, t.sessionId, t.eventSeq, t.digest, e);
    ok := !clash && !buried;
    if ok {
      forall id | id in l.events
        ensures var held := l.events[id].envelope; !EventConflict(id, held.sessionId, held.eventSeq, OfEvent(held), e)
      {
        if id in EventIdsOf(es) {
          var r :| r in es && r.envelope.eventId == id;
        } else {
          var t :| t in ts && t.eventId == id;
        }
      }
    }
  }

  datatype AppendedFile = AppendedFile(file: File, envelope: EventEnvelope, duplicate: bool)

  /** The stored file's answer to an append is the ledger's, except that an event whose payload
      is gone is described with a fresh time. */
  ghost predicate AppendAnswers(f: File, now: string, r: Result<AppendedFile>, a: Result<Appended>) {
    match a
    case Err(error) => r == Err(error)
    case Ok(appended) =>
      && r.Ok? && Represents(r.value.file, appended.ledger) && r.value.duplicate == appended.duplicate
      && r.value.envelope == if appended.envelope.eventId in EventTombIds(f.eventTombstones)
                             then appended.envelope.(sentAt := now) else appended.envelope
  }

  method AppendEvent(f: File, id: EventId, s: Name, event: Event, now: string, ghost l: Ledger)
    returns (r: Result<AppendedFile>)
    requires Represents(f, l) && LedgerInvariants.EventBase(l)
    ensures AppendAnswers(f, now, r, Append(l, id, s, event, now))
  {
    var known := FindEvent(f.events, id);
    if known.Some? {
      r := AppendKnown(f, id, s, event, now, known.value, l);
      return;
    }
    var buried := FindEventTombstone(f.eventTombstones, id);
    if buried.Some? {
      r := AppendBuried(f, id, s, event, now, buried.value, l);
      return;
    }
    r := AppendFresh(f, id, s, event, now, l);
  }

  method AppendKnown(f: File, id: EventId, s: Name, event: Event, now: string, k: nat, ghost l: Ledger)
    returns (r: Result<AppendedFile>)
    requires Represents(f, l) && k < |f.events| && f.events[k].envelope.eventId == id
    ensures AppendAnswers(f, now, r, Append(l, id, s, event, now))
  {
    var existing := f.events[k];
    assert EventFits(existing, l);
    assert existing in f.events && id in EventIdsOf(f.events) && id !in EventTombIds(f.eventTombstones);
    if existing.envelope.sessionId != s || existing.envelope.event != event {
      return Err(IdentityConflict);
    }
    return Ok(AppendedFile(f, existing.envelope, true));
  }

  method AppendBuried(f: File, id: EventId, s: Name, event: Event, now: string, k: nat, ghost l: Ledger)
    returns (r: Result<AppendedFile>)
    requires Represents(f, l) && LedgerInvariants.EventKeyed(l)
    requires k < |f.eventTombstones| && f.eventTombstones[k].eventId == id
    ensures AppendAnswers(f, now, r, Append(l, id, s, event, now))
  {
    var existing := f.eventTombstones[k];
    assert EventTombstoneFits(existing, l);
    assert existing in f.eventTombstones && id in EventTombIds(f.eventTombstones);
    var candidate := EventEnvelope(id, s, existing.eventSeq, "", event);
    if existing.sessionId != s || existing.identityDigest != IdentityDigest(candidate) {
      return Err(IdentityConflict);
    }
    return Ok(AppendedFile(f, candidate.(sentAt := now), true));
  }

  lemma BelowNext(l: Ledger, s: Name)
    ensures forall id | id in l.events && l.events[id].envelope.sessionId == s ::
      l.events[id].envelope.eventSeq <= LastEventSeq(l, s)
  {
    forall id | id in l.events && l.events[id].envelope.sessionId == s
      ensures l.events[id].envelope.eventSeq <= LastEventSeq(l, s)
    {
      LedgerInvariants.SeqPresent(l, id);
      assert l.events[id].envelope.eventSeq in EventSeqs(l, s) + SessionOf(l, s).acked;
    }
  }

  /** A fresh event takes the next number, and its identity check cannot fail. */
  method AppendFresh(f: File, id: EventId, s: Name, event: Event, now: string, ghost l: Ledger)
    returns (r: Result<AppendedFile>)
    requires Represents(f, l) && LedgerInvariants.EventBase(l) && id !in l.events
    ensures AppendAnswers(f, now, r, Append(l, id, s, event, now))
  {
    StoredLastIs(f, l, s);
    var sequence := NextEventSequence(f, s);
    var envelope := EventEnvelope(id, s, sequence, now, event);
    if !ValidEvent(envelope) {
      return Err(ProtocolError);
    }
    BelowNext(l, s);
    var ok := ValidateEventIdentity(f.events, f.eventTombstones, envelope, l);
    assert ok;
    FreshAnswers(f, l, envelope);
    return Ok(AppendedFile(f.(events := f.events + [NewEvent(envelope)]), envelope, false));
  }

  lemma FreshAnswers(f: File, l: Ledger, e: EventEnvelope)
    requires Represents(f, l) && e.eventId !in l.events && e.eventSeq == LastEventSeq(l, e.sessionId) + 1
    requires ValidEvent(e)
    ensures AppendAnswers(f, e.sentAt, Ok(AppendedFile(f.(events := f.events + [NewEvent(e)]), e, false)),
                          Append(l, e.eventId, e.sessionId, e.event, e.sentAt))
  {
    assert Append(l, e.eventId, e.sessionId, e.event, e.sentAt) == Ok(Appended(AddEvents(l, [e]), e, false));
    FreshUnburied(f, l, e);
    PushEvent(f, l, e);
  }

  lemma FreshUnburied(f: File, l: Ledger, e: EventEnvelope)
    requires EventsRepresent(f.events, f.eventTombstones, l) && e.eventId !in l.events
    ensures e.eventId !in EventTombIds(f.eventTombstones)
  {
  }

  /* ---- Acknowledgement ---- */

  /** Retained records of a session that are marked acknowledged. */
  predicate RetainedAck(es: seq<EventRecord>, s: Name, n: nat) {
    exists r | r in es :: r.envelope.sessionId == s && r.envelope.eventSeq == n && r.acknowledged
  }

  /** `q` is where the watermark stops when it starts at `t`: past every acknowledged record that
      follows without a gap, and before the first sequence that no such record holds. */
  ghost predicate StopsAt(es: seq<EventRecord>, s: Name, t: nat, q: nat) {
    q >= t && (forall n | t < n <= q :: RetainedAck(es, s, n)) && !RetainedAck(es, s, q + 1)
  }

  /** Move a watermark over the acknowledged records that follow it. The set of acknowledged
      sequences is unchanged. */
  method AdvanceEventAck(es: seq<EventRecord>, s: Name, through: nat, sparse: seq<nat>)
    returns (t: nat, sp: seq<nat>)
    requires Canonical(through, sparse)
    requires forall r | r in es && r.envelope.sessionId == s && r.acknowledged ::
      r.envelope.eventSeq in AckSet(through, sparse)
    ensures Canonical(t, sp) && AckSet(t, sp) == AckSet(through, sparse)
    ensures StopsAt(es, s, through, t)
  {
    t, sp := through, sparse;
    while true
      invariant Canonical(t, sp) && AckSet(t, sp) == AckSet(through, sparse)
      invariant t >= through && forall n | through < n <= t :: RetainedAck(es, s, n)
      decreases |sp|
    {
      var next := t + 1;
      var acknowledged := RetainedAck(es, s, next);
      if !acknowledged {
        break;
      }
      assert next in AckSet(t, sp) && next in sp;
      var above := RetainAbove(sp, next);
      assert AckSet(next, above) == AckSet(t, sp);
      t, sp := next, above;
    }
  }

  /** Add one sequence to a session's cursor and let the watermark follow. */
  method NoteAck(es: seq<EventRecord>, s: Name, entry: SessionJournal, n: nat) returns (next: SessionJournal)
    requires Canonical(entry.eventAckThrough, entry.eventAckSparse) && n >= 1
    requires forall r | r in es && r.envelope.sessionId == s && r.acknowledged ::
      r.envelope.eventSeq == n || r.envelope.eventSeq in AckSet(entry.eventAckThrough, entry.eventAckSparse)
    ensures Canonical(next.eventAckThrough, next.eventAckSparse)
    ensures AckSet(next.eventAckThrough, next.eventAckSparse)
         == AckSet(entry.eventAckThrough, entry.eventAckSparse) + {n}
    ensures StopsAt(es, s, entry.eventAckThrough, next.eventAckThrough)
    ensures next.processedThrough == entry.processedThrough
    ensures next.serverCommandAckThrough == entry.serverCommandAckThrough
  {
    var sparse := entry.eventAckSparse;
    if n > entry.eventAckThrough {
      sparse := SortDedup(sparse + [n]);
    }
    var t, sp := AdvanceEventAck(es, s, entry.eventAckThrough, sparse);
    next := entry.(eventAckThrough := t, eventAckSparse := sp);
  }

  ghost predicate AckAnswers(r: Result<File>, a: Result<Ledger>) {
    match a
    case Err(error) => r == Err(error)
    case Ok(next) => r.Ok? && Represents(r.value, next)
  }

  predicate AtPlace(e: EventEnvelope, ack: EventAck) {
    e.sessionId == ack.sessionId && e.eventSeq == ack.eventSeq
  }

  /** The first record with the acknowledged id stands at another place. */
  predicate Disowned(es: seq<EventRecord>, ack: EventAck) {
    exists k | 0 <= k < |es| :: FirstHolds(es, ack.eventId, k) && !AtPlace(es[k].envelope, ack)
  }

  lemma DisownedFirst(es: seq<EventRecord>, ack: EventAck, k: nat)
    requires FirstHolds(es, ack.eventId, k)
    ensures Disowned(es, ack) <==> !AtPlace(es[k].envelope, ack)
  {
    forall j | 0 <= j < |es| && FirstHolds(es, ack.eventId, j) ensures j == k {
    }
  }

  /** An acknowledgement on the stored file answers as the whole history would: the same error,
      or the acknowledged set with exactly that sequence added and the status noted. In any file, an
      acknowledgement whose id is first held at another place is refused. */
  method AcknowledgeEvent(f: File, ack: EventAck, ghost l: Ledger) returns (r: Result<File>)
    requires Disowned(f.events, ack) || (Represents(f, l) && LedgerInvariants.EventBase(l))
    ensures Represents(f, l) && LedgerInvariants.EventBase(l) ==>
      AckAnswers(r, Acknowledge(l, ack)) && (r.Ok? <==> ValidAck(ack) && Answers.Acknowledgeable(l, ack))
    ensures r.Err? ==> r.error == if ValidAck(ack) then IdentityConflict else ProtocolError
    ensures ValidAck(ack) && Disowned(f.events, ack) ==> r == Err(IdentityConflict)
  {
    Answers.AcknowledgeAnswers(l, ack);
    if !ValidAck(ack) {
      return Err(ProtocolError);
    }
    var known := FindEvent(f.events, ack.eventId);
    if known.Some? {
      DisownedFirst(f.events, ack, known.value);
      r := AcknowledgeRecord(f, ack, known.value, l);
      return;
    }
    var buried := FindEventTombstone(f.eventTombstones, ack.eventId);
    if buried.None? {
      return Err(IdentityConflict);
    }
    r := AcknowledgeTombstone(f, ack, buried.value, l);
  }

  lemma EventIdsReplaced(es: seq<EventRecord>, k: nat, r: EventRecord)
    requires k < |es| && r.envelope == es[k].envelope
    ensures EventIdsOf(es[k := r]) == EventIdsOf(es)
  {
    var fs := es[k := r];
    forall x | x in EventIdsOf(es) ensures x in EventIdsOf(fs) {
      var i :| 0 <= i < |es| && es[i].envelope.eventId == x;
      assert fs[i] in fs;
    }
    forall x | x in EventIdsOf(fs) ensures x in EventIdsOf(es) {
      var i :| 0 <= i < |fs| && fs[i].envelope.eventId == x;
      assert es[i] in es;
    }
  }

  function Noted(r: EventRecord, status: EventAckStatus): EventRecord {
    r.(acknowledged := true, acknowledgement := Some(status))
  }

  /** `m` is `l` with the status of one event noted and its sequence acknowledged. */
  ghost predicate NotesAck(l: Ledger, m: Ledger, e: EventEnvelope, status: EventAckStatus) {
    && e.eventId in l.events && l.events[e.eventId].envelope == e
    && m.events == l.events[e.eventId := EventEntry(e, Some(status))]
    && m.commands == l.commands
    && (forall s :: Processed(m, s) == Processed(l, s))
    && (forall s ::
          SessionOf(m, s).acked == SessionOf(l, s).acked + if s == e.sessionId then {e.eventSeq} else {})
  }

  lemma NotedFits(l: Ledger, m: Ledger, e: EventEnvelope, status: EventAckStatus, r: EventRecord)
    requires NotesAck(l, m, e, status) && LedgerInvariants.EventKeyed(l) && EventFits(r, l)
    ensures r.envelope == e ==> EventFits(Noted(r, status), m)
    ensures r.envelope.eventId != e.eventId ==> EventFits(r, m)
  {
    assert LedgerInvariants.SamePlace(l.events, r.envelope.eventId, e.eventId) ==> r.envelope.eventId == e.eventId;
  }

  lemma NotedRecords(es: seq<EventRecord>, l: Ledger, k: nat, status: EventAckStatus, m: Ledger)
    requires LedgerInvariants.EventKeyed(l) && k < |es| && NotesAck(l, m, es[k].envelope, status)
    requires forall i | 0 <= i < |es| :: EventFits(es[i], l)
    requires forall i, j | 0 <= i < j < |es| :: es[i].envelope.eventId != es[j].envelope.eventId
    ensures var fs := es[k := Noted(es[k], status)]; forall i | 0 <= i < |fs| :: EventFits(fs[i], m)
  {
    forall i | 0 <= i < |es| ensures i == k || es[i].envelope.eventId != es[k].envelope.eventId {
    }
    var fs := es[k := Noted(es[k], status)];
    forall i | 0 <= i < |fs| ensures EventFits(fs[i], m) {
      NotedFits(l, m, es[k].envelope, status, es[i]);
    }
  }

  lemma NotedRecord(es: seq<EventRecord>, ts: seq<EventTombstone>, l: Ledger, k: nat, status: EventAckStatus, m: Ledger)
    requires EventsRepresent(es, ts, l) && LedgerInvariants.EventKeyed(l) && k < |es|
    requires NotesAck(l, m, es[k].envelope, status)
    ensures EventsRepresent(es[k := Noted(es[k], status)], ts, m)
  {
    EventIdsReplaced(es, k, Noted(es[k], status));
    assert es[k] in es && es[k].envelope.eventId in EventIdsOf(es);
    NotedRecords(es, l, k, status, m);
    NotedBuried(ts, l, es[k].envelope, status, m);
  }

  lemma NotedBuried(ts: seq<EventTombstone>, l: Ledger, e: EventEnvelope, status: EventAckStatus, m: Ledger)
    requires (forall j | 0 <= j < |ts| :: EventTombstoneFits(ts[j], l)) && e.eventId !in EventTombIds(ts)
    requires NotesAck(l, m, e, status)
    ensures forall j | 0 <= j < |ts| :: EventTombstoneFits(ts[j], m)
  {
    forall i | 0 <= i < |ts| ensures EventTombstoneFits(ts[i], m) {
      assert ts[i] in ts && ts[i].eventId in EventTombIds(ts);
    }
  }

  lemma AcknowledgeNotes(l: Ledger, ack: EventAck)
    requires LedgerInvariants.EventBase(l) && Acknowledge(l, ack).Ok?
    ensures NotesAck(l, Acknowledge(l, ack).value, l.events[ack.eventId].envelope, ack.status)
  {
    LedgerInvariants.AcknowledgeEffect(l, ack);
  }

  lemma NotedFile(f: File, l: Ledger, k: nat, status: EventAckStatus, m: Ledger, sessions: map<Name, SessionJournal>)
    requires Represents(f, l) && LedgerInvariants.EventKeyed(l) && k < |f.events|
    requires NotesAck(l, m, f.events[k].envelope, status) && SessionsRepresent(sessions, m.sessions)
    ensures Represents(f.(events := f.events[k := Noted(f.events[k], status)], sessions := sessions), m)
  {
    NotedRecord(f.events, f.eventTombstones, l, k, status, m);
    FileCommands.CommandsFrame(f.commands, f.commandTombstones, l, m);
  }

  method AcknowledgeRecord(f: File, ack: EventAck, k: nat, ghost l: Ledger) returns (r: Result<File>)
    requires k < |f.events| && f.events[k].envelope.eventId == ack.eventId && ValidAck(ack)
    requires AtPlace(f.events[k].envelope, ack) ==> Represents(f, l) && LedgerInvariants.EventBase(l)
    ensures Represents(f, l) && LedgerInvariants.EventBase(l) ==> AckAnswers(r, Acknowledge(l, ack))
    ensures !AtPlace(f.events[k].envelope, ack) ==> r == Err(IdentityConflict)
  {
    var record := f.events[k];
    assert Represents(f, l) ==> EventFits(record, l);
    if record.envelope.sessionId != ack.sessionId || record.envelope.eventSeq != ack.eventSeq {
      return Err(IdentityConflict);
    }
    if record.acknowledged && record.acknowledgement.Some? && record.acknowledgement != Some(ack.status) {
      return Err(IdentityConflict);
    }
    assert Acknowledge(l, ack).Ok?;
    AcknowledgeNotes(l, ack);
    if record.acknowledged {
      NotedFile(f, l, k, ack.status, Acknowledge(l, ack).value, f.sessions);
      return Ok(f.(events := f.events[k := Noted(record, ack.status)]));
    }
    var g := MarkAcknowledged(f, ack, k, l);
    return Ok(g);
  }

  lemma NotedCursor(es: seq<EventRecord>, ts: seq<EventTombstone>, l: Ledger, m: Ledger, e: EventEnvelope,
                    status: EventAckStatus, entry: SessionJournal)
    requires EventsRepresent(es, ts, m) && NotesAck(l, m, e, status)
    requires SessionFits(entry, SessionOf(l, e.sessionId))
    ensures forall r | r in es && r.envelope.sessionId == e.sessionId && r.acknowledged ::
      r.envelope.eventSeq == e.eventSeq || r.envelope.eventSeq in AckSet(entry.eventAckThrough, entry.eventAckSparse)
  {
    FitsAll(es, ts, m);
  }

  lemma NotedSessions(f: File, l: Ledger, ack: EventAck, entry: SessionJournal)
    requires SessionsRepresent(f.sessions, l.sessions) && Acknowledge(l, ack).Ok?
    requires ack.eventSeq !in SessionOf(l, ack.sessionId).acked
    requires SessionFits(entry, SessionOf(Acknowledge(l, ack).value, ack.sessionId))
    ensures SessionsRepresent(f.sessions[ack.sessionId := entry], Acknowledge(l, ack).value.sessions)
  {
  }

  /** The first acknowledgement of a retained event: mark it, add its sequence to the session's
      cursor and let the watermark follow. */
  method MarkAcknowledged(f: File, ack: EventAck, k: nat, ghost l: Ledger) returns (g: File)
    requires Represents(f, l) && LedgerInvariants.EventBase(l) && Acknowledge(l, ack).Ok?
    requires k < |f.events| && f.events[k].envelope.eventId == ack.eventId && !f.events[k].acknowledged
    ensures Represents(g, Acknowledge(l, ack).value)
  {
    ghost var m := Acknowledge(l, ack).value;
    assert EventFits(f.events[k], l);
    AcknowledgeNotes(l, ack);
    NotedRecord(f.events, f.eventTombstones, l, k, ack.status, m);
    FileCommands.BoundaryRead(f, l, ack.sessionId);
    var events := f.events[k := Noted(f.events[k], ack.status)];
    var before := SessionEntry(f.sessions, ack.sessionId);
    NotedCursor(events, f.eventTombstones, l, m, f.events[k].envelope, ack.status, before);
    var entry := NoteAck(events, ack.sessionId, before, ack.eventSeq);
    NotedSessions(f, l, ack, entry);
    NotedFile(f, l, k, ack.status, m, f.sessions[ack.sessionId := entry]);
    g := f.(events := events, sessions := f.sessions[ack.sessionId := entry]);
  }

  method AcknowledgeTombstone(f: File, ack: EventAck, k: nat, ghost l: Ledger) returns (r: Result<File>)
    requires Represents(f, l) && ValidAck(ack)
    requires k < |f.eventTombstones| && f.eventTombstones[k].eventId == ack.eventId
    ensures AckAnswers(r, Acknowledge(l, ack))
  {
    var t := f.eventTombstones[k];
    assert EventTombstoneFits(t, l);
    if t.sessionId != ack.sessionId || t.eventSeq != ack.eventSeq
       || (t.acknowledgement.Some? && t.acknowledgement != Some(ack.status)) {
      return Err(IdentityConflict);
    }
    var noted := t.(acknowledgement := Some(ack.status));
    NotedTombstone(f, l, k, ack.status);
    return Ok(f.(eventTombstones := f.eventTombstones[k := noted]));
  }

  lemma TombIdsReplaced(ts: seq<EventTombstone>, k: nat, t: EventTombstone)
    requires k < |ts| && t.eventId == ts[k].eventId
    ensures EventTombIds(ts[k := t]) == EventTombIds(ts)
  {
    var us := ts[k := t];
    forall x | x in EventTombIds(ts) ensures x in EventTombIds(us) {
      var i :| 0 <= i < |ts| && ts[i].eventId == x;
      assert us[i] in us;
    }
    forall x | x in EventTombIds(us) ensures x in EventTombIds(ts) {
      var i :| 0 <= i < |us| && us[i].eventId == x;
      assert ts[i] in ts;
    }
  }

  lemma NotedTombstones(es: seq<EventRecord>, ts: seq<EventTombstone>, l: Ledger, k: nat, status: EventAckStatus)
    requires EventsRepresent(es, ts, l) && k < |ts| && ts[k].eventId in l.events
    ensures EventsRepresent(es, ts[k := ts[k].(acknowledgement := Some(status))],
      l.(events := l.events[ts[k].eventId := l.events[ts[k].eventId].(ack := Some(status))]))
  {
    var t := ts[k];
    var us := ts[k := t.(acknowledgement := Some(status))];
    var m := l.(events := l.events[t.eventId := l.events[t.eventId].(ack := Some(status))]);
    TombIdsReplaced(ts, k, t.(acknowledgement := Some(status)));
    assert t in ts && t.eventId in EventTombIds(ts);
    forall i | 0 <= i < |es| ensures EventFits(es[i], m) {
      assert EventFits(es[i], l) && es[i] in es;
    }
    forall i | 0 <= i < |us| ensures EventTombstoneFits(us[i], m) {
      assert EventTombstoneFits(ts[i], l);
    }
  }

  lemma NotedTombstone(f: File, l: Ledger, k: nat, status: EventAckStatus)
    requires Represents(f, l) && k < |f.eventTombstones|
    ensures var t := f.eventTombstones[k];
      && t.eventId in l.events
      && Represents(f.(eventTombstones := f.eventTombstones[k := t.(acknowledgement := Some(status))]),
                    l.(events := l.events[t.eventId := l.events[t.eventId].(ack := Some(status))]))
  {
    var t := f.eventTombstones[k];
    assert EventTombstoneFits(t, l);
    NotedTombstones(f.events, f.eventTombstones, l, k, status);
    FileCommands.CommandsFrame(f.commands, f.commandTombstones, l,
      l.(events := l.events[t.eventId := l.events[t.eventId].(ack := Some(status))]));
  }

  /* ---- Reconciliation ---- */

  /** The watermark a merge leaves: the larger of the two, wherever the sparse lists go on. */
  function MergedThrough(t: nat, u: nat): nat {
    if u > t then u else t
  }

  /** Merge a server cursor into a session's own: set union. */
  method MergeCursor(entry: SessionJournal, r: SessionReconcileState) returns (next: SessionJournal)
    requires Canonical(entry.eventAckThrough, entry.eventAckSparse) && ValidReconcileState(r)
    ensures Canonical(next.eventAckThrough, next.eventAckSparse)
    ensures AckSet(next.eventAckThrough, next.eventAckSparse)
         == AckSet(entry.eventAckThrough, entry.eventAckSparse) + AckSet(r.eventAckThrough, r.eventAckSparse)
    ensures next.eventAckThrough == MergedThrough(entry.eventAckThrough, r.eventAckThrough)
    ensures next.processedThrough == entry.processedThrough
    ensures next.serverCommandAckThrough
         == if r.commandAckThrough > entry.serverCommandAckThrough then r.commandAckThrough
            else entry.serverCommandAckThrough
  {
    var server :=
      if r.commandAckThrough > entry.serverCommandAckThrough then r.commandAckThrough
      else entry.serverCommandAckThrough;
    var through := if r.eventAckThrough > entry.eventAckThrough then r.eventAckThrough else entry.eventAckThrough;
    var merged := SortDedup(entry.eventAckSparse + r.eventAckSparse);
    var sparse := RetainAbove(merged, through);
    next := SessionJournal(entry.processedThrough, through, sparse, server);
  }

  function Marked(r: EventRecord, s: Name, through: nat, sparse: seq<nat>): EventRecord {
    if r.envelope.sessionId == s && (r.envelope.eventSeq <= through || r.envelope.eventSeq in sparse)
    then r.(acknowledged := true) else r
  }

  method MarkReconciled(es: seq<EventRecord>, s: Name, through: nat, sparse: seq<nat>) returns (fs: seq<EventRecord>)
    ensures |fs| == |es| && forall i | 0 <= i < |es| :: fs[i] == Marked(es[i], s, through, sparse)
  {
    fs := [];
    for i := 0 to |es|
      invariant |fs| == i && forall k | 0 <= k < i :: fs[k] == Marked(es[k], s, through, sparse)
    {
      fs := fs + [Marked(es[i], s, through, sparse)];
    }
  }

  lemma SameIds(es: seq<EventRecord>, fs: seq<EventRecord>)
    requires |es| == |fs| && forall i | 0 <= i < |es| :: es[i].envelope == fs[i].envelope
    ensures EventIdsOf(es) == EventIdsOf(fs)
  {
    forall x | x in EventIdsOf(es) ensures x in EventIdsOf(fs) {
      var i :| 0 <= i < |es| && es[i].envelope.eventId == x;
      assert fs[i] in fs;
    }
    forall x | x in EventIdsOf(fs) ensures x in EventIdsOf(es) {
      var i :| 0 <= i < |fs| && fs[i].envelope.eventId == x;
      assert es[i] in es;
    }
  }

  /** The acknowledged set of one session grows to what its cursor now stands for. */
  ghost predicate Grows(l: Ledger, m: Ledger, s: Name, entry: SessionJournal) {
    && m.events == l.events && m.commands == l.commands
    && (forall x :: Processed(m, x) == Processed(l, x))
    && (forall x :: x != s ==> SessionOf(m, x).acked == SessionOf(l, x).acked)
    && SessionOf(l, s).acked <= SessionOf(m, s).acked
    && SessionOf(m, s).acked == AckSet(entry.eventAckThrough, entry.eventAckSparse)
  }

  lemma MarkedRepresent(es: seq<EventRecord>, ts: seq<EventTombstone>, l: Ledger, m: Ledger, s: Name,
                        entry: SessionJournal, fs: seq<EventRecord>)
    requires EventsRepresent(es, ts, l) && LedgerInvariants.EventKeyed(l) && Grows(l, m, s, entry)
    requires |fs| == |es|
    requires forall i | 0 <= i < |es| :: fs[i] == Marked(es[i], s, entry.eventAckThrough, entry.eventAckSparse)
    ensures EventsRepresent(fs, ts, m)
  {
    SameIds(es, fs);
    forall i | 0 <= i < |fs| ensures EventFits(fs[i], m) {
      assert EventFits(es[i], l);
    }
    forall i | 0 <= i < |ts| ensures EventTombstoneFits(ts[i], m) {
      assert EventTombstoneFits(ts[i], l);
    }
  }

  lemma ReconciledSessions(f: File, l: Ledger, r: SessionReconcileState, entry: SessionJournal)
    requires SessionsRepresent(f.sessions, l.sessions)
    requires SessionFits(entry, ReconcileOne(l, r).sessions[r.sessionId])
    ensures SessionsRepresent(f.sessions[r.sessionId := entry], ReconcileOne(l, r).sessions)
    ensures Grows(l, ReconcileOne(l, r), r.sessionId, entry)
  {
  }

  method ReconcileSession(f: File, r: SessionReconcileState, ghost l: Ledger) returns (g: File)
    requires Represents(f, l) && LedgerInvariants.EventKeyed(l) && ValidReconcileState(r)
    ensures Represents(g, ReconcileOne(l, r))
  {
    ghost var m := ReconcileOne(l, r);
    FileCommands.BoundaryRead(f, l, r.sessionId);
    var entry := MergeCursor(SessionEntry(f.sessions, r.sessionId), r);
    var events := MarkReconciled(f.events, r.sessionId, entry.eventAckThrough, entry.eventAckSparse);
    ReconciledSessions(f, l, r, entry);
    MarkedRepresent(f.events, f.eventTombstones, l, m, r.sessionId, entry, events);
    FileCommands.CommandsFrame(f.commands, f.commandTombstones, l, m);
    g := f.(sessions := f.sessions[r.sessionId := entry], events := events);
  }

  method ApplyReconciliation(f: File, rs: seq<SessionReconcileState>, ghost l: Ledger) returns (g: File)
    requires Represents(f, l) && LedgerInvariants.EventBase(l) && ValidSnapshot(rs)
    ensures Represents(g, Reconcile(l, rs))
  {
    g := f;
    var i := 0;
    while i < |rs|
      invariant i <= |rs| && Represents(g, Reconcile(l, rs[..i]))
    {
      assert rs[..i + 1][..i] == rs[..i] && rs[i] in rs;
      LedgerInvariants.ReconcileKeeps(l, rs[..i]);
      g := ReconcileSession(g, rs[i], Reconcile(l, rs[..i]));
      i := i + 1;
    }
    assert rs[..i] == rs;
  }

  /* ---- Replay ---- */

  predicate ReplayWanted(r: EventRecord, state: SessionReconcileState) {
    && r.envelope.sessionId == state.sessionId
    && r.envelope.eventSeq > state.eventAckThrough && r.envelope.eventSeq !in state.eventAckSparse
    && !r.acknowledged
  }

  lemma LastApart(es: seq<EventEnvelope>)
    requires es != [] && AscendingEvents(es)
    ensures var n := |es| - 1;
      && AscendingEvents(es[..n])
      && (forall d | d in es[..n] :: d.eventSeq < es[n].eventSeq)
      && forall d :: d in es <==> d in es[..n] || d == es[n]
  {
    var n := |es| - 1;
    assert es == es[..n] + [es[n]];
  }

  lemma AppendLast(es: seq<EventEnvelope>, e: EventEnvelope)
    requires AscendingEvents(es) && forall d | d in es :: d.eventSeq < e.eventSeq
    ensures AscendingEvents(es + [e]) && forall d :: d in es + [e] <==> d in es || d == e
  {
    forall i | 0 <= i < |es| ensures es[i].eventSeq < e.eventSeq {
      assert es[i] in es;
    }
  }

  function InsertEvent(es: seq<EventEnvelope>, e: EventEnvelope): (r: seq<EventEnvelope>)
    requires AscendingEvents(es) && forall d | d in es :: d.eventSeq != e.eventSeq
    ensures AscendingEvents(r) && forall d :: d in r <==> d in es || d == e
  {
    if es == [] then [e]
    else
      var n := |es| - 1;
      LastApart(es);
      if es[n].eventSeq < e.eventSeq then
        AppendLast(es, e);
        es + [e]
      else
        var r := InsertEvent(es[..n], e);
        AppendLast(r, es[n]);
        r + [es[n]]
  }

  /** Filter the events a server still needs, then sort them by sequence. */
  method ReplayEvents(f: File, state: SessionReconcileState, ghost l: Ledger) returns (es: seq<EventEnvelope>)
    requires Represents(f, l) && LedgerInvariants.EventKeyed(l)
    ensures IsReplay(l, state, es)
  {
    es := [];
    var i := 0;
    while i < |f.events|
      invariant i <= |f.events| && AscendingEvents(es)
      invariant forall e :: e in es <==> exists r | r in f.events[..i] :: ReplayWanted(r, state) && r.envelope == e
    {
      var r := f.events[i];
      assert f.events[..i + 1] == f.events[..i] + [r];
      DistinctSeqs(f, l, i);
      if ReplayWanted(r, state) {
        es := InsertEvent(es, r.envelope);
      }
      i := i + 1;
    }
    assert f.events[..i] == f.events;
    WantedIsOwed(f, l, state);
  }

  lemma DistinctSeqs(f: File, l: Ledger, i: nat)
    requires Represents(f, l) && LedgerInvariants.EventKeyed(l) && i < |f.events|
    ensures forall r | r in f.events[..i] && r.envelope.sessionId == f.events[i].envelope.sessionId ::
      r.envelope.eventSeq != f.events[i].envelope.eventSeq
  {
    forall k | 0 <= k < i && f.events[k].envelope.sessionId == f.events[i].envelope.sessionId
      ensures f.events[k].envelope.eventSeq != f.events[i].envelope.eventSeq
    {
      assert EventFits(f.events[k], l) && EventFits(f.events[i], l);
      assert !LedgerInvariants.SamePlace(l.events, f.events[k].envelope.eventId, f.events[i].envelope.eventId);
    }
  }

  lemma WantedIsOwed(f: File, l: Ledger, state: SessionReconcileState)
    requires Represents(f, l) && LedgerInvariants.EventKeyed(l)
    ensures forall r | r in f.events && ReplayWanted(r, state) ::
      Owed(l, state, r.envelope.eventId) && l.events[r.envelope.eventId].envelope == r.envelope
    ensures forall id | Owed(l, state, id) ::
      exists r | r in f.events :: ReplayWanted(r, state) && r.envelope == l.events[id].envelope
  {
    FitsAll(f.events, f.eventTombstones, l);
    forall id | Owed(l, state, id)
      ensures exists r | r in f.events :: ReplayWanted(r, state) && r.envelope == l.events[id].envelope
    {
      assert id !in EventTombIds(f.eventTombstones);
      var r :| r in f.events && r.envelope.eventId == id;
      assert ReplayWanted(r, state);
    }
  }

  /* ---- Compaction ---- */

  predicate Compactable(r: EventRecord, s: Name, through: nat, sparse: seq<nat>) {
    && r.envelope.sessionId == s && r.acknowledged
    && (r.envelope.eventSeq <= through || r.envelope.eventSeq in sparse)
  }

  function TombstoneOf(r: EventRecord): EventTombstone {
    EventTombstone(r.envelope.eventId, r.envelope.sessionId, r.envelope.eventSeq, r.digest,
                   IdentityDigest(r.envelope), r.acknowledgement)
  }

  function Kept(es: seq<EventRecord>, s: Name, through: nat, sparse: seq<nat>): seq<EventRecord> {
    if es == [] then []
    else
      var r := es[|es| - 1];
      Kept(es[..|es| - 1], s, through, sparse) + if Compactable(r, s, through, sparse) then [] else [r]
  }

  function Buried(es: seq<EventRecord>, s: Name, through: nat, sparse: seq<nat>): seq<EventTombstone> {
    if es == [] then []
    else
      var r := es[|es| - 1];
      Buried(es[..|es| - 1], s, through, sparse) + if Compactable(r, s, through, sparse) then [TombstoneOf(r)] else []
  }

  method CompactEvents(es: seq<EventRecord>, ts: seq<EventTombstone>, s: Name, through: nat, sparse: seq<nat>)
    returns (retained: seq<EventRecord>, tombstones: seq<EventTombstone>)
    ensures retained == Kept(es, s, through, sparse)
    ensures tombstones == ts + Buried(es, s, through, sparse)
    ensures forall r :: r in retained <==>
      r in es && !(r.envelope.sessionId == s && r.acknowledged
                   && (r.envelope.eventSeq <= through || r.envelope.eventSeq in sparse))
  {
    KeptContents(es, s, through, sparse);
    retained, tombstones := [], ts;
    var i := 0;
    while i < |es|
      invariant i <= |es|
      invariant retained == Kept(es[..i], s, through, sparse)
      invariant tombstones == ts + Buried(es[..i], s, through, sparse)
    {
      assert es[..i + 1][..i] == es[..i];
      if Compactable(es[i], s, through, sparse) {
        tombstones := tombstones + [TombstoneOf(es[i])];
      } else {
        retained := retained + [es[i]];
      }
      i := i + 1;
    }
    assert es[..i] == es;
  }

  ghost predicate DistinctRecords(es: seq<EventRecord>) {
    forall i, j | 0 <= i < j < |es| :: es[i].envelope.eventId != es[j].envelope.eventId
  }

  ghost predicate DistinctTombstones(ts: seq<EventTombstone>) {
    forall i, j | 0 <= i < j < |ts| :: ts[i].eventId != ts[j].eventId
  }

  lemma {:induction false} KeptContents(es: seq<EventRecord>, s: Name, through: nat, sparse: seq<nat>)
    ensures forall r :: r in Kept(es, s, through, sparse) <==> r in es && !Compactable(r, s, through, sparse)
    ensures DistinctRecords(es) ==> DistinctRecords(Kept(es, s, through, sparse))
  {
    if es != [] {
      var n := |es| - 1;
      KeptContents(es[..n], s, through, sparse);
      assert es == es[..n] + [es[n]];
      assert DistinctRecords(es) ==> forall r | r in es[..n] :: r.envelope.eventId != es[n].envelope.eventId;
    }
  }

  lemma {:induction false} BuriedContents(es: seq<EventRecord>, s: Name, through: nat, sparse: seq<nat>)
    requires DistinctRecords(es)
    ensures forall t | t in Buried(es, s, through, sparse) ::
      exists r | r in es && Compactable(r, s, through, sparse) :: t == TombstoneOf(r)
    ensures forall r | r in es && Compactable(r, s, through, sparse) :: TombstoneOf(r) in Buried(es, s, through, sparse)
    ensures DistinctTombstones(Buried(es, s, through, sparse))
  {
    if es != [] {
      var n := |es| - 1;
      BuriedContents(es[..n], s, through, sparse);
      assert es == es[..n] + [es[n]];
      assert forall r | r in es[..n] :: r.envelope.eventId != es[n].envelope.eventId;
      assert forall t | t in Buried(es[..n], s, through, sparse) :: t.eventId != es[n].envelope.eventId;
    }
  }

  lemma CompactedIds(es: seq<EventRecord>, s: Name, through: nat, sparse: seq<nat>)
    requires DistinctRecords(es)
    ensures EventIdsOf(Kept(es, s, through, sparse)) !! EventTombIds(Buried(es, s, through, sparse))
    ensures EventIdsOf(Kept(es, s, through, sparse)) + EventTombIds(Buried(es, s, through, sparse)) == EventIdsOf(es)
  {
    KeptContents(es, s, through, sparse);
    BuriedContents(es, s, through, sparse);
    forall r, q | r in es && q in es && r.envelope.eventId == q.envelope.eventId ensures r == q {
      var i :| 0 <= i < |es| && es[i] == r;
      var j :| 0 <= j < |es| && es[j] == q;
    }
    forall id | id in EventIdsOf(es)
      ensures id in EventIdsOf(Kept(es, s, through, sparse)) + EventTombIds(Buried(es, s, through, sparse))
    {
      var r :| r in es && r.envelope.eventId == id;
      if Compactable(r, s, through, sparse) {
        assert TombstoneOf(r) in Buried(es, s, through, sparse);
      }
    }
  }

  /** Compaction of events is invisible to the ledger, and it buries only acknowledged events:
      no payload leaves the journal before the server has taken the event. */
  lemma CompactionKeepsEvents(es: seq<EventRecord>, ts: seq<EventTombstone>, l: Ledger, s: Name, entry: SessionJournal)
    requires EventsRepresent(es, ts, l) && SessionFits(entry, SessionOf(l, s))
    ensures EventsRepresent(Kept(es, s, entry.eventAckThrough, entry.eventAckSparse),
                            ts + Buried(es, s, entry.eventAckThrough, entry.eventAckSparse), l)
  {
    var through, sparse := entry.eventAckThrough, entry.eventAckSparse;
    var ks, bs := Kept(es, s, through, sparse), Buried(es, s, through, sparse);
    KeptContents(es, s, through, sparse);
    BuriedContents(es, s, through, sparse);
    CompactedIds(es, s, through, sparse);
    FitsAll(es, ts, l);
    forall t | t in bs ensures EventTombstoneFits(t, l) {
      var r :| r in es && Compactable(r, s, through, sparse) && t == TombstoneOf(r);
      assert EventFits(r, l);
    }
    assert EventTombIds(ts + bs) == EventTombIds(ts) + EventTombIds(bs);
    forall i, j | 0 <= i < |ts| && 0 <= j < |bs| ensures ts[i].eventId != bs[j].eventId {
      assert ts[i].eventId in EventTombIds(ts) && bs[j].eventId in EventTombIds(bs);
    }
  }

  /* ---- How far the watermark goes ---- */

  lemma StopsInside(es: seq<EventRecord>, ts: seq<EventTombstone>, l: Ledger, s: Name, t: nat, q: nat, k: nat)
    requires EventsRepresent(es, ts, l) && StopsAt(es, s, t, q)
    requires Upto(t) <= SessionOf(l, s).acked && LongestAcked(SessionOf(l, s).acked, k)
    ensures t <= q <= k
  {
    FitsAll(es, ts, l);
    forall n | 1 <= n <= q ensures n in SessionOf(l, s).acked {
      assert n <= t ==> n in Upto(t);
      assert n > t ==> RetainedAck(es, s, n);
    }
  }

  lemma HeldOnce(es: seq<EventRecord>, ts: seq<EventTombstone>, l: Ledger, s: Name, n: nat)
    requires EventsRepresent(es, ts, l) && LedgerInvariants.EventInv(l) && n in SessionOf(l, s).acked
    ensures RetainedAck(es, s, n) <==> n !in TombstoneSeqs(ts, s)
  {
    FitsAll(es, ts, l);
    SeqsHeld(es, ts, l, s);
    if RetainedAck(es, s, n) {
      var r :| r in es && r.envelope.sessionId == s && r.envelope.eventSeq == n && r.acknowledged;
      forall t | t in ts && t.sessionId == s ensures t.eventSeq != n {
        assert r.envelope.eventId in EventIdsOf(es) && t.eventId in EventTombIds(ts);
        assert !LedgerInvariants.SamePlace(l.events, r.envelope.eventId, t.eventId);
      }
    }
  }

  /** The journal's watermark is the longest acknowledged prefix exactly when compaction has
      buried none of the events between the old watermark and the end of that prefix. */
  lemma WatermarkMaximalIff(es: seq<EventRecord>, ts: seq<EventTombstone>, l: Ledger, s: Name, t: nat, q: nat, k: nat)
    requires EventsRepresent(es, ts, l) && LedgerInvariants.EventInv(l) && StopsAt(es, s, t, q)
    requires Upto(t) <= SessionOf(l, s).acked && LongestAcked(SessionOf(l, s).acked, k)
    ensures q <= k
    ensures q == k <==> forall n | t < n <= k :: n !in TombstoneSeqs(ts, s)
  {
    StopsInside(es, ts, l, s, t, q, k);
    forall n | 1 <= n <= k ensures RetainedAck(es, s, n) <==> n !in TombstoneSeqs(ts, s) {
      HeldOnce(es, ts, l, s, n);
    }
    if q < k {
      var next := q + 1;
      assert next in TombstoneSeqs(ts, s);
    }
  }

  /** Two events of one session, the second acknowledged and buried, the first still open. */
  function LaggingLedger(a: EventEnvelope, b: EventEnvelope): Ledger {
    Ledger(map[a.sessionId := Session(0, {2}, 0)], map[],
           map[a.eventId := EventEntry(a, None), b.eventId := EventEntry(b, Some(Accepted))])
  }

  function LaggingFile(a: EventEnvelope, b: EventEnvelope): File {
    File(map[a.sessionId := SessionJournal(0, 0, [2], 0)], [], [], [NewEvent(a)],
         [TombstoneOf(Noted(NewEvent(b), Accepted))])
  }

  lemma LaggingIsReached(a: EventEnvelope, b: EventEnvelope)
    requires a.eventId != b.eventId && a.sessionId == b.sessionId && a.eventSeq == 1 && b.eventSeq == 2
    requires ValidEvent(a) && ValidEvent(b)
    ensures var first := Append(EMPTY, a.eventId, a.sessionId, a.event, a.sentAt);
      && first.Ok?
      && var second := Append(first.value.ledger, b.eventId, b.sessionId, b.event, b.sentAt);
      && second.Ok?
      && Acknowledge(second.value.ledger, EventAck(b.eventId, b.sessionId, 2, Accepted, None))
         == Ok(LaggingLedger(a, b))
  {
    var s := a.sessionId;
    MaxIs(EventSeqs(EMPTY, s) + SessionOf(EMPTY, s).acked, 0);
    LedgerInvariants.AddOne(EMPTY, a);
    var l := AddEvents(EMPTY, [a]);
    LedgerInvariants.AddKeeps(EMPTY, a);
    LedgerInvariants.AddOne(l, b);
    assert a == EventEnvelope(a.eventId, s, 1, a.sentAt, a.event);
    assert b == EventEnvelope(b.eventId, s, 2, b.sentAt, b.event);
    assert Append(l, b.eventId, s, b.event, b.sentAt) == Ok(Appended(AddEvents(l, [b]), b, false));
    var both := Ledger(map[], map[], map[a.eventId := EventEntry(a, None), b.eventId := EventEntry(b, None)]);
    assert AddEvents(l, [b]) == both;
    AcknowledgeSecond(both, a, b);
  }

  lemma AcknowledgeSecond(l: Ledger, a: EventEnvelope, b: EventEnvelope)
    requires a.eventId != b.eventId && a.sessionId == b.sessionId && b.eventSeq == 2
    requires l == Ledger(map[], map[], map[a.eventId := EventEntry(a, None), b.eventId := EventEntry(b, None)])
    ensures Acknowledge(l, EventAck(b.eventId, b.sessionId, 2, Accepted, None)) == Ok(LaggingLedger(a, b))
  {
    var acked: set<nat> := {};
    assert acked + {2} == {2};
    assert l.events[b.eventId := EventEntry(b, Some(Accepted))] == LaggingLedger(a, b).events;
  }

  /** The file of that history before compaction: the second event is retained, acknowledged. */
  function UncompactedFile(a: EventEnvelope, b: EventEnvelope): File {
    File(map[a.sessionId := SessionJournal(0, 0, [2], 0)], [], [], [NewEvent(a), Noted(NewEvent(b), Accepted)], [])
  }

  lemma UncompactedRepresented(a: EventEnvelope, b: EventEnvelope)
    requires a.eventId != b.eventId && a.sessionId == b.sessionId && a.eventSeq == 1 && b.eventSeq == 2
    ensures Represents(UncompactedFile(a, b), LaggingLedger(a, b))
  {
    var f := UncompactedFile(a, b);
    assert EventIdsOf(f.events) == {a.eventId, b.eventId} by {
      assert f.events[0] in f.events && f.events[1] in f.events;
    }
    assert EventTombIds(f.eventTombstones) == {};
    assert Ids([]) == {} && TombIds([]) == {};
    assert AckSet(0, [2]) == {2};
  }

  /** One compaction of the session leads from that file to the other. */
  lemma LaggingCompacted(a: EventEnvelope, b: EventEnvelope)
    requires a.eventId != b.eventId && a.sessionId == b.sessionId && a.eventSeq == 1 && b.eventSeq == 2
    ensures var f := UncompactedFile(a, b);
      var entry := SessionEntry(f.sessions, a.sessionId);
      f.(events := Kept(f.events, a.sessionId, entry.eventAckThrough, entry.eventAckSparse),
         eventTombstones := f.eventTombstones
           + Buried(f.events, a.sessionId, entry.eventAckThrough, entry.eventAckSparse))
      == LaggingFile(a, b)
  {
    var one, two := NewEvent(a), Noted(NewEvent(b), Accepted);
    assert [one, two][..1] == [one] && [one][..0] == [];
    assert Kept([], a.sessionId, 0, [2]) == [] && Buried([], a.sessionId, 0, [2]) == [];
    assert Kept([one], a.sessionId, 0, [2]) == [one] && Buried([one], a.sessionId, 0, [2]) == [];
  }

  /** A merge leaves the longest acknowledged prefix as the watermark exactly when neither sparse
      list goes on from the larger of the two watermarks. */
  lemma MergeMaximalIff(t: nat, s: seq<nat>, u: nat, r: seq<nat>)
    requires Canonical(t, s) && Canonical(u, r)
    ensures LongestAcked(AckSet(t, s) + AckSet(u, r), MergedThrough(t, u))
       <==> MergedThrough(t, u) + 1 !in s && MergedThrough(t, u) + 1 !in r
  {
  }

  /** With nothing compacted, a valid snapshot that acknowledges event 1 completes the prefix 1, 2 of
      that journal and leaves its watermark at 1. */
  lemma MergeLags(a: EventEnvelope, b: EventEnvelope)
    requires a.eventId != b.eventId && a.sessionId == b.sessionId && a.eventSeq == 1 && b.eventSeq == 2
    ensures var r := SessionReconcileState(a.sessionId, 0, 1, []);
      var entry := SessionEntry(UncompactedFile(a, b).sessions, a.sessionId);
      && ValidSnapshot([r]) && UncompactedFile(a, b).eventTombstones == []
      && LongestAcked(SessionOf(ReconcileOne(LaggingLedger(a, b), r), a.sessionId).acked, 2)
      && MergedThrough(entry.eventAckThrough, r.eventAckThrough) == 1
  {
    var r := SessionReconcileState(a.sessionId, 0, 1, []);
    assert [r][0] == r;
    assert SessionOf(ReconcileOne(LaggingLedger(a, b), r), a.sessionId).acked == {2} + AckSet(1, []);
  }

  lemma LaggingRepresented(a: EventEnvelope, b: EventEnvelope)
    requires a.eventId != b.eventId && a.sessionId == b.sessionId && a.eventSeq == 1 && b.eventSeq == 2
    ensures Represents(LaggingFile(a, b), LaggingLedger(a, b))
  {
    var f := LaggingFile(a, b);
    assert EventIdsOf(f.events) == {a.eventId} && EventTombIds(f.eventTombstones) == {b.eventId};
    assert Ids([]) == {} && TombIds([]) == {};
    assert AckSet(0, [2]) == {2};
  }

  /** A reachable journal whose watermark falls short: the acknowledgement of event 1 completes
      the prefix 1, 2, but the buried event 2 stops the watermark at 1. */
  lemma WatermarkLags(a: EventEnvelope, b: EventEnvelope, q: nat)
    requires a.eventId != b.eventId && a.sessionId == b.sessionId && a.eventSeq == 1 && b.eventSeq == 2
    requires StopsAt([Noted(NewEvent(a), Accepted)], a.sessionId, 0, q)
    ensures var r := Acknowledge(LaggingLedger(a, b), EventAck(a.eventId, a.sessionId, 1, Accepted, None));
      r.Ok? && LongestAcked(SessionOf(r.value, a.sessionId).acked, 2)
    ensures q == 1
  {
    var es := [Noted(NewEvent(a), Accepted)];
    assert es[0] in es && RetainedAck(es, a.sessionId, 1) && !RetainedAck(es, a.sessionId, 2);
  }
}
