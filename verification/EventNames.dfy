/** Which event ids the stored journal holds, how often, and when one comes to be held twice. */
module EventNames {
  import opened Protocol
  import opened DeliveryLedger
  import opened JournalFile
  import LedgerInvariants
  import FileEvents

  /* ---- The ids a file holds ---- */

  function RecordNames(es: seq<EventRecord>): multiset<EventId> {
    if es == [] then multiset{}
    else RecordNames(es[..|es| - 1]) + multiset{es[|es| - 1].envelope.eventId}
  }

  function TombNames(ts: seq<EventTombstone>): multiset<EventId> {
    if ts == [] then multiset{} else TombNames(ts[..|ts| - 1]) + multiset{ts[|ts| - 1].eventId}
  }

  /** Every id as often as a record or a tombstone has it. */
  function Names(f: File): multiset<EventId> {
    RecordNames(f.events) + TombNames(f.eventTombstones)
  }

  /** Two events of the file share an id. */
  ghost predicate Shares(f: File) {
    exists id :: Names(f)[id] >= 2
  }

  lemma {:induction false} NamesAppend(a: seq<EventRecord>, b: seq<EventRecord>)
    ensures RecordNames(a + b) == RecordNames(a) + RecordNames(b)
  {
    if b == [] {
      assert a + b == a;
    } else {
      assert (a + b)[..|a + b| - 1] == a + b[..|b| - 1];
      NamesAppend(a, b[..|b| - 1]);
    }
  }

  lemma {:induction false} TombNamesAppend(a: seq<EventTombstone>, b: seq<EventTombstone>)
    ensures TombNames(a + b) == TombNames(a) + TombNames(b)
  {
    if b == [] {
      assert a + b == a;
    } else {
      assert (a + b)[..|a + b| - 1] == a + b[..|b| - 1];
      TombNamesAppend(a, b[..|b| - 1]);
    }
  }

  lemma {:induction false} RecordNamed(es: seq<EventRecord>, id: EventId)
    ensures id in RecordNames(es) <==> id in EventIdsOf(es)
  {
    if es != [] {
      var front := es[..|es| - 1];
      assert es == front + [es[|es| - 1]];
      RecordNamed(front, id);
      assert EventIdsOf(es) == EventIdsOf(front) + {es[|es| - 1].envelope.eventId};
    }
  }

  lemma {:induction false} TombNamed(ts: seq<EventTombstone>, id: EventId)
    ensures id in TombNames(ts) <==> id in EventTombIds(ts)
  {
    if ts != [] {
      var front := ts[..|ts| - 1];
      assert ts == front + [ts[|ts| - 1]];
      TombNamed(front, id);
      assert EventTombIds(ts) == EventTombIds(front) + {ts[|ts| - 1].eventId};
    }
  }

  lemma {:induction false} RecordsOnce(es: seq<EventRecord>, id: EventId)
    requires forall i, j | 0 <= i < j < |es| :: es[i].envelope.eventId != es[j].envelope.eventId
    ensures RecordNames(es)[id] <= 1
  {
    if es != [] {
      RecordsOnce(es[..|es| - 1], id);
      RecordNamed(es[..|es| - 1], id);
    }
  }

  lemma {:induction false} TombsOnce(ts: seq<EventTombstone>, id: EventId)
    requires forall i, j | 0 <= i < j < |ts| :: ts[i].eventId != ts[j].eventId
    ensures TombNames(ts)[id] <= 1
  {
    if ts != [] {
      TombsOnce(ts[..|ts| - 1], id);
      TombNamed(ts[..|ts| - 1], id);
    }
  }

  /** A file that stands for a history has each event's id once, and no other. */
  lemma RepresentedOnce(f: File, l: Ledger, id: EventId)
    requires EventsRepresent(f.events, f.eventTombstones, l)
    ensures Names(f)[id] == if id in l.events then 1 else 0
  {
    RecordNamed(f.events, id);
    TombNamed(f.eventTombstones, id);
    RecordsOnce(f.events, id);
    TombsOnce(f.eventTombstones, id);
  }

  lemma RepresentedApart(f: File, l: Ledger)
    requires EventsRepresent(f.events, f.eventTombstones, l)
    ensures !Shares(f)
  {
    forall id ensures Names(f)[id] < 2 {
      RepresentedOnce(f, l, id);
    }
  }

  lemma {:induction false} PushedNames(es: seq<EventEnvelope>, i: nat)
    requires i < |es|
    ensures es[i].eventId in RecordNames(FileEvents.NewEvents(es))
  {
    var records := FileEvents.NewEvents(es);
    assert records[i] in records;
    RecordNamed(records, es[i].eventId);
  }

  /** Pushing an event under an id that is held makes two events share it. */
  lemma PushShares(f: File, l: Ledger, es: seq<EventEnvelope>, i: nat)
    requires EventsRepresent(f.events, f.eventTombstones, l) && i < |es| && es[i].eventId in l.events
    ensures Shares(FileEvents.Pushed(f, es))
  {
    NamesAppend(f.events, FileEvents.NewEvents(es));
    RepresentedOnce(f, l, es[i].eventId);
    PushedNames(es, i);
    assert Names(FileEvents.Pushed(f, es))[es[i].eventId] >= 2;
  }

  lemma OneName(e: EventRecord, t: EventTombstone)
    ensures RecordNames([e]) == multiset{e.envelope.eventId} && TombNames([t]) == multiset{t.eventId}
  {
    assert [e][..0] == [] && [t][..0] == [];
  }

  lemma MovedName(kept: seq<EventRecord>, buried: seq<EventTombstone>, e: EventRecord, t: EventTombstone)
    requires t.eventId == e.envelope.eventId
    ensures RecordNames(kept + [e]) + TombNames(buried)
         == RecordNames(kept) + TombNames(buried) + multiset{e.envelope.eventId}
    ensures RecordNames(kept) + TombNames(buried + [t])
         == RecordNames(kept) + TombNames(buried) + multiset{e.envelope.eventId}
  {
    OneName(e, t);
    NamesAppend(kept, [e]);
    TombNamesAppend(buried, [t]);
  }

  lemma LastMoves(es: seq<EventRecord>, s: Name, through: nat, sparse: seq<nat>)
    requires es != []
    ensures var front, e := es[..|es| - 1], es[|es| - 1];
      var kept, buried := FileEvents.Kept(front, s, through, sparse), FileEvents.Buried(front, s, through, sparse);
      if FileEvents.Compactable(e, s, through, sparse) then
        && FileEvents.Kept(es, s, through, sparse) == kept
        && FileEvents.Buried(es, s, through, sparse) == buried + [FileEvents.TombstoneOf(e)]
      else
        && FileEvents.Kept(es, s, through, sparse) == kept + [e]
        && FileEvents.Buried(es, s, through, sparse) == buried
  {
  }

  /** Compaction moves ids and neither drops nor adds one. */
  lemma {:induction false} CompactionKeepsNames(es: seq<EventRecord>, s: Name, through: nat, sparse: seq<nat>)
    ensures RecordNames(FileEvents.Kept(es, s, through, sparse)) + TombNames(FileEvents.Buried(es, s, through, sparse))
         == RecordNames(es)
  {
    if es != [] {
      var front, e := es[..|es| - 1], es[|es| - 1];
      CompactionKeepsNames(front, s, through, sparse);
      LastMoves(es, s, through, sparse);
      MovedName(FileEvents.Kept(front, s, through, sparse), FileEvents.Buried(front, s, through, sparse), e,
                FileEvents.TombstoneOf(e));
    }
  }
}
