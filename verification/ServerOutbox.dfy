/** The server's command outbox: sequence allocation, idempotence by command id, acknowledgement,
    the watermark, and the move of acknowledged rows to tombstones. */
module ServerOutbox {
  import opened Protocol
  import opened DeliveryLedger
  import opened EventCursor

  /** A command as it was sent, for ever, and whether the daemon has acknowledged it. */
  datatype Entry = Entry(envelope: CommandEnvelope, acknowledged: bool)

  type History = map<Name, Entry>

  /** What identifies a command: everything it says but the time it was sent. */
  function Identity(e: CommandEnvelope): CommandEnvelope {
    e.(sentAt := "")
  }

  function Seqs(h: History, s: Name): set<nat> {
    set id | id in h && h[id].envelope.sessionId == s :: h[id].envelope.commandSeq
  }

  function AckedSeqs(h: History, s: Name): set<nat> {
    set id | id in h && h[id].envelope.sessionId == s && h[id].acknowledged :: h[id].envelope.commandSeq
  }

  ghost function Last(h: History, s: Name): nat { MaxOf(Seqs(h, s)) }

  predicate SameSlot(h: History, id: Name, jd: Name) {
    && id in h && jd in h
    && h[id].envelope.sessionId == h[jd].envelope.sessionId && h[id].envelope.commandSeq == h[jd].envelope.commandSeq
  }

  /** Each session's sequences are 1 up to the last, every one used once. */
  ghost predicate Numbered(h: History) {
    && (forall id | id in h ::
          h[id].envelope.commandId == id && h[id].envelope.commandSeq >= 1)
    && (forall id, jd :: SameSlot(h, id, jd) ==> id == jd)
    && forall s :: Seqs(h, s) == Upto(Last(h, s))
  }

  datatype Row = Row(envelope: CommandEnvelope, acknowledged: bool)

  datatype Tombstone = Tombstone(sessionId: Name, commandSeq: nat, identity: Digest)

  /** Outbox and tombstones split the history between them; only acknowledged commands at or
      below their session's watermark are buried. */
  ghost predicate Splits(outbox: map<Name, Row>, tombstones: map<Name, Tombstone>, watermarks: map<Name, nat>,
                         h: History) {
    && outbox.Keys !! tombstones.Keys && h.Keys == outbox.Keys + tombstones.Keys
    && (forall id | id in outbox :: h[id] == Entry(outbox[id].envelope, outbox[id].acknowledged))
    && (forall id | id in tombstones :: Buries(tombstones[id], watermarks, h[id]))
  }

  predicate Buries(t: Tombstone, watermarks: map<Name, nat>, e: Entry) {
    && e.acknowledged && t == Tombstone(e.envelope.sessionId, e.envelope.commandSeq, OfCommand(Identity(e.envelope)))
    && t.sessionId in watermarks && t.commandSeq <= watermarks[t.sessionId]
  }

  /** Every watermark is the longest acknowledged prefix of its session. */
  ghost predicate Exact(watermarks: map<Name, nat>, h: History) {
    && (forall id | id in h :: h[id].envelope.sessionId in watermarks)
    && forall s | s in watermarks :: AtPrefix(h, s, watermarks[s])
  }

  predicate AtPrefix(h: History, s: Name, w: nat) {
    LongestAcked(AckedSeqs(h, s), w)
  }

  /** The message map names the one command that carries each message of a session. */
  ghost predicate MessagesBound(messages: map<(Name, Name), Name>, h: History) {
    && (forall id | id in h && MessageIdOf(h[id].envelope.command).Some? ::
          Bound(messages, h[id].envelope.sessionId, MessageIdOf(h[id].envelope.command).value, id))
    && forall k | k in messages ::
         messages[k] in h && h[messages[k]].envelope.sessionId == k.0
         && MessageIdOf(h[messages[k]].envelope.command) == Some(k.1)
  }

  predicate Bound(messages: map<(Name, Name), Name>, s: Name, m: Name, id: Name) {
    (s, m) in messages && messages[(s, m)] == id
  }

  lemma SeqHolder(h: History, s: Name, n: nat) returns (id: Name)
    requires n in Seqs(h, s)
    ensures id in h && h[id].envelope.sessionId == s && h[id].envelope.commandSeq == n
  {
    id :| id in h && h[id].envelope.sessionId == s && h[id].envelope.commandSeq == n;
  }

  lemma EmptyNumbered()
    ensures Numbered(map[])
  {
    var h: History := map[];
    forall s ensures Seqs(h, s) == Upto(Last(h, s)) {
      MaxIs(Seqs(h, s), 0);
    }
  }

  /* ---- Allocation ---- */

  lemma InsertSeqs(h: History, e: CommandEnvelope, s: Name)
    requires e.commandId !in h
    ensures var g := h[e.commandId := Entry(e, false)];
      && Seqs(g, s) == Seqs(h, s) + (if s == e.sessionId then {e.commandSeq} else {})
      && AckedSeqs(g, s) == AckedSeqs(h, s)
  {
    var g := h[e.commandId := Entry(e, false)];
    forall n | n in Seqs(h, s) ensures n in Seqs(g, s) {
      var id := SeqHolder(h, s, n);
      assert id in g && g[id] == h[id];
    }
    assert g[e.commandId].envelope == e;
    forall n | n in AckedSeqs(h, s) ensures n in AckedSeqs(g, s) {
      var id :| id in h && h[id].envelope.sessionId == s && h[id].acknowledged && h[id].envelope.commandSeq == n;
      assert id in g && g[id] == h[id];
    }
  }

  lemma InsertNumbered(h: History, e: CommandEnvelope)
    requires Numbered(h) && e.commandId !in h && e.commandSeq == Last(h, e.sessionId) + 1
    ensures Numbered(h[e.commandId := Entry(e, false)])
  {
    var g := h[e.commandId := Entry(e, false)];
    forall s ensures Seqs(g, s) == Upto(Last(g, s)) {
      InsertSeqs(h, e, s);
      if s == e.sessionId {
        MaxIs(Seqs(g, s), e.commandSeq);
      }
    }
    forall id | id in h && h[id].envelope.sessionId == e.sessionId ensures h[id].envelope.commandSeq < e.commandSeq {
      assert h[id].envelope.commandSeq in Seqs(h, e.sessionId);
    }
    forall id, jd | SameSlot(g, id, jd) ensures id == jd {
      assert id in h && jd in h ==> SameSlot(h, id, jd);
    }
  }

  lemma InsertExact(watermarks: map<Name, nat>, h: History, e: CommandEnvelope)
    requires Exact(watermarks, h) && e.commandId !in h && e.sessionId in watermarks
    ensures Exact(watermarks, h[e.commandId := Entry(e, false)])
  {
    forall s ensures AckedSeqs(h[e.commandId := Entry(e, false)], s) == AckedSeqs(h, s) {
      InsertSeqs(h, e, s);
    }
  }

  /* ---- Acknowledgement ---- */

  function Acked(h: History, id: Name): History
    requires id in h
  {
    h[id := h[id].(acknowledged := true)]
  }

  lemma AckedSeqsAfter(h: History, id: Name, s: Name)
    requires id in h
    ensures Seqs(Acked(h, id), s) == Seqs(h, s)
    ensures AckedSeqs(Acked(h, id), s)
         == AckedSeqs(h, s) + (if s == h[id].envelope.sessionId then {h[id].envelope.commandSeq} else {})
  {
    var g := Acked(h, id);
    forall n | n in Seqs(h, s) ensures n in Seqs(g, s) {
      var jd := SeqHolder(h, s, n);
      assert jd in g && g[jd].envelope == h[jd].envelope;
    }
    forall n | n in AckedSeqs(h, s) ensures n in AckedSeqs(g, s) {
      var jd :| jd in h && h[jd].envelope.sessionId == s && h[jd].acknowledged && h[jd].envelope.commandSeq == n;
      assert jd in g && g[jd] == h[jd];
    }
    assert g[id].acknowledged;
  }

  lemma AckedNumbered(h: History, id: Name)
    requires Numbered(h) && id in h
    ensures Numbered(Acked(h, id))
  {
    forall jd, kd | SameSlot(Acked(h, id), jd, kd) ensures jd == kd {
      assert SameSlot(h, jd, kd);
    }
    forall s ensures Seqs(Acked(h, id), s) == Upto(Last(Acked(h, id), s)) {
      AckedSeqsAfter(h, id, s);
      MaxIs(Seqs(Acked(h, id), s), Last(h, s));
    }
  }

  /** The least unacknowledged sequence of a session above a floor, among the rows. */
  predicate FirstOpen(outbox: map<Name, Row>, s: Name, floor: nat, m: Option<nat>) {
    && (m.Some? ==> m.value > floor && exists id | id in outbox :: OpenAt(outbox[id], s, m.value))
    && forall id | id in outbox && outbox[id].envelope.sessionId == s && outbox[id].envelope.commandSeq > floor
         && !outbox[id].acknowledged :: m.Some? && m.value <= outbox[id].envelope.commandSeq
  }

  predicate OpenAt(r: Row, s: Name, n: nat) {
    r.envelope.sessionId == s && r.envelope.commandSeq == n && !r.acknowledged
  }

  predicate LargestRow(outbox: map<Name, Row>, s: Name, m: nat) {
    && (m == 0 || exists id | id in outbox :: outbox[id].envelope.sessionId == s && outbox[id].envelope.commandSeq == m)
    && forall id | id in outbox && outbox[id].envelope.sessionId == s :: outbox[id].envelope.commandSeq <= m
  }

  method FindFirstOpen(outbox: map<Name, Row>, s: Name, floor: nat) returns (m: Option<nat>)
    ensures FirstOpen(outbox, s, floor, m)
  {
    m := None;
    var todo := outbox.Keys;
    while todo != {}
      invariant todo <= outbox.Keys
      invariant m.Some? ==> m.value > floor && exists id | id in outbox :: OpenAt(outbox[id], s, m.value)
      invariant forall id | id in outbox && id !in todo && outbox[id].envelope.sessionId == s
        && outbox[id].envelope.commandSeq > floor && !outbox[id].acknowledged ::
        m.Some? && m.value <= outbox[id].envelope.commandSeq
      decreases todo
    {
      var id :| id in todo;
      var r := outbox[id];
      if r.envelope.sessionId == s && r.envelope.commandSeq > floor && !r.acknowledged
         && (m.None? || r.envelope.commandSeq < m.value) {
        m := Some(r.envelope.commandSeq);
        assert OpenAt(outbox[id], s, m.value);
      }
      todo := todo - {id};
    }
  }

  method FindLargestRow(outbox: map<Name, Row>, s: Name) returns (m: nat)
    ensures LargestRow(outbox, s, m)
  {
    m := 0;
    var todo := outbox.Keys;
    while todo != {}
      invariant todo <= outbox.Keys
      invariant m == 0 || exists id | id in outbox ::
        outbox[id].envelope.sessionId == s && outbox[id].envelope.commandSeq == m
      invariant forall id | id in outbox && id !in todo && outbox[id].envelope.sessionId == s ::
        outbox[id].envelope.commandSeq <= m
      decreases todo
    {
      var id :| id in todo;
      if outbox[id].envelope.sessionId == s && outbox[id].envelope.commandSeq > m {
        m := outbox[id].envelope.commandSeq;
      }
      todo := todo - {id};
    }
  }

  /** The watermark the server computes from the rows left in the outbox, by a minimum and a
      maximum, is the longest acknowledged prefix of the whole history. */
  lemma WatermarkIsPrefix(outbox: map<Name, Row>, tombstones: map<Name, Tombstone>, watermarks: map<Name, nat>,
                          h: History, s: Name, open: Option<nat>, largest: nat, w: nat)
    requires Numbered(h) && Splits(outbox, tombstones, watermarks, h)
    requires s in watermarks && Upto(watermarks[s]) <= AckedSeqs(h, s)
    requires FirstOpen(outbox, s, watermarks[s], open) && LargestRow(outbox, s, largest)
    requires w == if open.Some? then open.value - 1 else if largest > watermarks[s] then largest else watermarks[s]
    ensures LongestAcked(AckedSeqs(h, s), w) && w >= watermarks[s]
  {
    forall n | 1 <= n <= w ensures n in AckedSeqs(h, s) {
      PrefixAcked(outbox, tombstones, watermarks, h, s, open, largest, w, n);
    }
    if open.Some? {
      var jd :| jd in outbox && OpenAt(outbox[jd], s, open.value);
      forall id | id in h && h[id].envelope.sessionId == s && h[id].envelope.commandSeq == w + 1 ensures id == jd {
        assert SameSlot(h, id, jd);
      }
    } else {
      forall id | id in h && h[id].envelope.sessionId == s ensures h[id].envelope.commandSeq <= w {
        if h[id].envelope.commandSeq > watermarks[s] {
          AboveIsRow(outbox, tombstones, watermarks, h, id);
        }
      }
    }
  }

  lemma AboveIsRow(outbox: map<Name, Row>, tombstones: map<Name, Tombstone>, watermarks: map<Name, nat>, h: History,
                   id: Name)
    requires Splits(outbox, tombstones, watermarks, h) && id in h
    requires h[id].envelope.sessionId in watermarks
    requires h[id].envelope.commandSeq > watermarks[h[id].envelope.sessionId]
    ensures id in outbox
  {
    assert id in outbox || Buries(tombstones[id], watermarks, h[id]);
  }

  lemma PrefixAcked(outbox: map<Name, Row>, tombstones: map<Name, Tombstone>, watermarks: map<Name, nat>,
                    h: History, s: Name, open: Option<nat>, largest: nat, w: nat, n: nat)
    requires Numbered(h) && Splits(outbox, tombstones, watermarks, h)
    requires s in watermarks && Upto(watermarks[s]) <= AckedSeqs(h, s)
    requires FirstOpen(outbox, s, watermarks[s], open) && LargestRow(outbox, s, largest)
    requires w == if open.Some? then open.value - 1 else if largest > watermarks[s] then largest else watermarks[s]
    requires 1 <= n <= w
    ensures n in AckedSeqs(h, s)
  {
    if n > watermarks[s] {
      var top := if open.Some? then open.value else largest;
      assert top in Seqs(h, s) by {
        var id :| id in outbox && outbox[id].envelope.sessionId == s && outbox[id].envelope.commandSeq == top;
        assert h[id].envelope == outbox[id].envelope;
      }
      assert n in Seqs(h, s);
      var id := SeqHolder(h, s, n);
      AboveIsRow(outbox, tombstones, watermarks, h, id);
      assert h[id].acknowledged;
    }
  }

  /* ---- The store ---- */

  datatype OutboxError = ProtocolIntegrity

  datatype Outcome<+T> = Done(value: T) | Refused(error: OutboxError)

  /** What the caller of a start gets: the pinned command, without its payload once compacted. */
  datatype Pinned = Pinned(commandId: Name, sessionId: Name, commandSeq: nat, payload: Option<CommandEnvelope>)

  predicate Compactable(r: Row, s: Name, w: nat) {
    r.envelope.sessionId == s && r.envelope.commandSeq <= w && r.acknowledged
  }

  function TombstoneOf(r: Row): Tombstone {
    Tombstone(r.envelope.sessionId, r.envelope.commandSeq, OfCommand(Identity(r.envelope)))
  }

  function KeptRows(outbox: map<Name, Row>, s: Name, w: nat): map<Name, Row> {
    map id | id in outbox && !Compactable(outbox[id], s, w) :: outbox[id]
  }

  function BuriedRows(outbox: map<Name, Row>, s: Name, w: nat): map<Name, Tombstone> {
    map id | id in outbox && Compactable(outbox[id], s, w) :: TombstoneOf(outbox[id])
  }

  lemma CompactionSplits(outbox: map<Name, Row>, tombstones: map<Name, Tombstone>, watermarks: map<Name, nat>,
                         h: History, s: Name)
    requires Splits(outbox, tombstones, watermarks, h) && s in watermarks
    ensures Splits(KeptRows(outbox, s, watermarks[s]), tombstones + BuriedRows(outbox, s, watermarks[s]), watermarks, h)
  {
  }

  /** Another command of the session already carries this message. */
  predicate MessageTaken(h: History, s: Name, command: Command) {
    MessageIdOf(command).Some? && exists id | id in h ::
      h[id].envelope.sessionId == s && MessageIdOf(h[id].envelope.command) == MessageIdOf(command)
  }

  method FindLargestTombstone(tombstones: map<Name, Tombstone>, s: Name) returns (m: nat)
    ensures m == 0 || exists id | id in tombstones :: tombstones[id].sessionId == s && tombstones[id].commandSeq == m
    ensures forall id | id in tombstones && tombstones[id].sessionId == s :: tombstones[id].commandSeq <= m
  {
    m := 0;
    var todo := tombstones.Keys;
    while todo != {}
      invariant todo <= tombstones.Keys
      invariant m == 0 || exists id | id in tombstones ::
        tombstones[id].sessionId == s && tombstones[id].commandSeq == m
      invariant forall id | id in tombstones && id !in todo && tombstones[id].sessionId == s ::
        tombstones[id].commandSeq <= m
      decreases todo
    {
      var id :| id in todo;
      if tombstones[id].sessionId == s && tombstones[id].commandSeq > m {
        m := tombstones[id].commandSeq;
      }
      todo := todo - {id};
    }
  }

  /** The highest of rows, tombstones and watermark is the last sequence ever allocated. */
  method LastAllocated(outbox: map<Name, Row>, tombstones: map<Name, Tombstone>, watermarks: map<Name, nat>,
                       s: Name, ghost h: History)
    returns (last: nat)
    requires Numbered(h) && Splits(outbox, tombstones, watermarks, h) && Exact(watermarks, h)
    ensures last == Last(h, s)
  {
    var row := FindLargestRow(outbox, s);
    var buried := FindLargestTombstone(tombstones, s);
    var w := if s in watermarks then watermarks[s] else 0;
    last := if row > buried then row else buried;
    last := if last > w then last else w;
    WatermarkAllocated(watermarks, h, s);
    forall id | id in h && h[id].envelope.sessionId == s ensures h[id].envelope.commandSeq <= last {
      assert id in outbox || Buries(tombstones[id], watermarks, h[id]);
    }
    if last > 0 {
      SomeHolder(outbox, tombstones, watermarks, h, s, last);
    }
    MaxIs(Seqs(h, s), last);
  }

  lemma WatermarkAllocated(watermarks: map<Name, nat>, h: History, s: Name)
    requires Exact(watermarks, h)
    ensures s in watermarks && watermarks[s] > 0 ==> watermarks[s] in Seqs(h, s)
  {
    if s in watermarks && watermarks[s] > 0 {
      assert LongestAcked(AckedSeqs(h, s), watermarks[s]);
      var n := watermarks[s];
      assert n in AckedSeqs(h, s);
    }
  }

  lemma SomeHolder(outbox: map<Name, Row>, tombstones: map<Name, Tombstone>, watermarks: map<Name, nat>, h: History,
                   s: Name, n: nat)
    requires Splits(outbox, tombstones, watermarks, h)
    requires
      || n in Seqs(h, s)
      || (exists id | id in outbox :: outbox[id].envelope.sessionId == s && outbox[id].envelope.commandSeq == n)
      || exists id | id in tombstones :: tombstones[id].sessionId == s && tombstones[id].commandSeq == n
    ensures n in Seqs(h, s)
  {
    forall id | id in tombstones ensures id in h && Buries(tombstones[id], watermarks, h[id]) {
    }
    forall id | id in outbox ensures id in h && h[id].envelope == outbox[id].envelope {
    }
  }

  lemma NewSession(watermarks: map<Name, nat>, h: History, s: Name)
    requires Exact(watermarks, h) && s !in watermarks
    ensures Exact(watermarks[s := 0], h)
  {
    assert AckedSeqs(h, s) == {};
  }

  lemma InsertSplits(outbox: map<Name, Row>, tombstones: map<Name, Tombstone>, watermarks: map<Name, nat>, h: History,
                     e: CommandEnvelope)
    requires Splits(outbox, tombstones, watermarks, h) && e.commandId !in h
    ensures Splits(outbox[e.commandId := Row(e, false)], tombstones, watermarks,
                   h[e.commandId := Entry(e, false)])
  {
  }

  lemma WidenSplits(outbox: map<Name, Row>, tombstones: map<Name, Tombstone>, watermarks: map<Name, nat>, h: History,
                    next: map<Name, nat>)
    requires Splits(outbox, tombstones, watermarks, h)
    requires forall s | s in watermarks :: s in next && watermarks[s] <= next[s]
    ensures Splits(outbox, tombstones, next, h)
  {
    forall id | id in tombstones ensures Buries(tombstones[id], next, h[id]) {
      assert Buries(tombstones[id], watermarks, h[id]);
    }
  }

  lemma InsertBinds(messages: map<(Name, Name), Name>, h: History, e: CommandEnvelope, next: map<(Name, Name), Name>)
    requires MessagesBound(messages, h) && e.commandId !in h
    requires match MessageIdOf(e.command)
             case None => next == messages
             case Some(m) => (e.sessionId, m) !in messages && next == messages[(e.sessionId, m) := e.commandId]
    ensures MessagesBound(next, h[e.commandId := Entry(e, false)])
  {
    var g := h[e.commandId := Entry(e, false)];
    forall id | id in g && MessageIdOf(g[id].envelope.command).Some?
      ensures Bound(next, g[id].envelope.sessionId, MessageIdOf(g[id].envelope.command).value, id)
    {
      if id != e.commandId {
        assert Bound(messages, h[id].envelope.sessionId, MessageIdOf(h[id].envelope.command).value, id);
      }
    }
  }

  lemma TakenIsMapped(messages: map<(Name, Name), Name>, h: History, s: Name, command: Command)
    requires MessagesBound(messages, h)
    ensures MessageTaken(h, s, command)
       <==> MessageIdOf(command).Some? && (s, MessageIdOf(command).value) in messages
  {
    if MessageIdOf(command).Some? {
      var m := MessageIdOf(command).value;
      forall id | id in h && h[id].envelope.sessionId == s && MessageIdOf(h[id].envelope.command) == Some(m)
        ensures (s, m) in messages
      {
        assert Bound(messages, s, m, id);
      }
    }
  }

  lemma AckSplits(outbox: map<Name, Row>, tombstones: map<Name, Tombstone>, watermarks: map<Name, nat>, h: History,
                  id: Name)
    requires Splits(outbox, tombstones, watermarks, h) && id in h
    ensures Splits(if id in outbox then outbox[id := outbox[id].(acknowledged := true)] else outbox,
                   tombstones, watermarks, Acked(h, id))
  {
    forall jd | jd in tombstones ensures Buries(tombstones[jd], watermarks, Acked(h, id)[jd]) {
      assert Buries(tombstones[jd], watermarks, h[jd]);
    }
  }

  lemma AckBinds(messages: map<(Name, Name), Name>, h: History, id: Name)
    requires MessagesBound(messages, h) && id in h
    ensures MessagesBound(messages, Acked(h, id))
  {
    var g := Acked(h, id);
    forall jd | jd in g && MessageIdOf(g[jd].envelope.command).Some?
      ensures Bound(messages, g[jd].envelope.sessionId, MessageIdOf(g[jd].envelope.command).value, jd)
    {
      assert Bound(messages, h[jd].envelope.sessionId, MessageIdOf(h[jd].envelope.command).value, jd);
    }
  }

  lemma MovedExact(watermarks: map<Name, nat>, h: History, id: Name, w: nat)
    requires Exact(watermarks, h) && id in h
    requires LongestAcked(AckedSeqs(Acked(h, id), h[id].envelope.sessionId), w)
    ensures Exact(watermarks[h[id].envelope.sessionId := w], Acked(h, id))
  {
    forall s | s in watermarks && s != h[id].envelope.sessionId ensures AckedSeqs(Acked(h, id), s) == AckedSeqs(h, s) {
      AckedSeqsAfter(h, id, s);
    }
  }

  lemma AgainExact(watermarks: map<Name, nat>, h: History, id: Name)
    requires id in h && h[id].acknowledged
    ensures Acked(h, id) == h
  {
  }

  ghost predicate Consistent(outbox: map<Name, Row>, tombstones: map<Name, Tombstone>, watermarks: map<Name, nat>,
                             messages: map<(Name, Name), Name>, h: History) {
    && Numbered(h) && Splits(outbox, tombstones, watermarks, h)
    && Exact(watermarks, h) && MessagesBound(messages, h)
  }

  predicate HeldBy(outbox: map<Name, Row>, tombstones: map<Name, Tombstone>, id: Name, s: Name, n: nat) {
    || (id in outbox && outbox[id].envelope.sessionId == s && outbox[id].envelope.commandSeq == n)
    || (id in tombstones && tombstones[id].sessionId == s && tombstones[id].commandSeq == n)
  }

  lemma HeldInHistory(outbox: map<Name, Row>, tombstones: map<Name, Tombstone>, watermarks: map<Name, nat>, h: History,
                      id: Name, s: Name, n: nat)
    requires Splits(outbox, tombstones, watermarks, h)
    ensures HeldBy(outbox, tombstones, id, s, n)
       <==> id in h && h[id].envelope.sessionId == s && h[id].envelope.commandSeq == n
  {
    if id in tombstones {
      assert Buries(tombstones[id], watermarks, h[id]);
    }
  }

  /** Rows and tombstones partition 1..N: a sequence is held by exactly one command, in exactly one
      of the two tables, when it was allocated, and by none otherwise. */
  lemma PartitionOfSequences(outbox: map<Name, Row>, tombstones: map<Name, Tombstone>, watermarks: map<Name, nat>,
                             messages: map<(Name, Name), Name>, h: History, s: Name, n: nat)
    requires Consistent(outbox, tombstones, watermarks, messages, h)
    ensures outbox.Keys !! tombstones.Keys
    ensures 1 <= n <= Last(h, s) <==> exists id :: HeldBy(outbox, tombstones, id, s, n)
    ensures forall id, jd :: HeldBy(outbox, tombstones, id, s, n) && HeldBy(outbox, tombstones, jd, s, n) ==> id == jd
  {
    forall id ensures HeldBy(outbox, tombstones, id, s, n)
                 <==> id in h && h[id].envelope.sessionId == s && h[id].envelope.commandSeq == n {
      HeldInHistory(outbox, tombstones, watermarks, h, id, s, n);
    }
    forall id, jd | HeldBy(outbox, tombstones, id, s, n) && HeldBy(outbox, tombstones, jd, s, n) ensures id == jd {
      assert SameSlot(h, id, jd);
    }
    assert n in Seqs(h, s) <==> n in Upto(Last(h, s));
    if n in Seqs(h, s) {
      var id := SeqHolder(h, s, n);
      assert HeldBy(outbox, tombstones, id, s, n);
    }
  }

  function WithSession(watermarks: map<Name, nat>, s: Name): map<Name, nat> {
    if s in watermarks then watermarks else watermarks[s := 0]
  }

  lemma InsertConsistent(outbox: map<Name, Row>, tombstones: map<Name, Tombstone>, watermarks: map<Name, nat>,
                         messages: map<(Name, Name), Name>, h: History, e: CommandEnvelope,
                         next: map<(Name, Name), Name>)
    requires Consistent(outbox, tombstones, watermarks, messages, h)
    requires e.commandId !in h && e.commandSeq == Last(h, e.sessionId) + 1
    requires match MessageIdOf(e.command)
             case None => next == messages
             case Some(m) => (e.sessionId, m) !in messages && next == messages[(e.sessionId, m) := e.commandId]
    ensures Consistent(outbox[e.commandId := Row(e, false)], tombstones, WithSession(watermarks, e.sessionId), next,
                       h[e.commandId := Entry(e, false)])
  {
    var ws := WithSession(watermarks, e.sessionId);
    if e.sessionId !in watermarks {
      NewSession(watermarks, h, e.sessionId);
    }
    WidenSplits(outbox, tombstones, watermarks, h, ws);
    InsertNumbered(h, e);
    InsertSplits(outbox, tombstones, ws, h, e);
    InsertExact(ws, h, e);
    InsertBinds(messages, h, e, next);
  }

  lemma RowSession(outbox: map<Name, Row>, tombstones: map<Name, Tombstone>, watermarks: map<Name, nat>, h: History,
                   id: Name)
    requires Splits(outbox, tombstones, watermarks, h) && Exact(watermarks, h) && id in outbox
    ensures id in h && outbox[id].envelope.sessionId in watermarks
  {
  }

  lemma AckConsistent(outbox: map<Name, Row>, tombstones: map<Name, Tombstone>, watermarks: map<Name, nat>,
                      messages: map<(Name, Name), Name>, h: History, id: Name, open: Option<nat>, largest: nat, w: nat)
    requires Consistent(outbox, tombstones, watermarks, messages, h) && id in outbox
    requires outbox[id].envelope.sessionId in watermarks
    requires var s := outbox[id].envelope.sessionId;
      var marked := outbox[id := outbox[id].(acknowledged := true)];
      && FirstOpen(marked, s, watermarks[s], open) && LargestRow(marked, s, largest)
      && w == if open.Some? then open.value - 1 else if largest > watermarks[s] then largest else watermarks[s]
    ensures id in h
    ensures Consistent(outbox[id := outbox[id].(acknowledged := true)], tombstones,
                       watermarks[outbox[id].envelope.sessionId := w], messages, Acked(h, id))
  {
    var s := outbox[id].envelope.sessionId;
    var marked := outbox[id := outbox[id].(acknowledged := true)];
    AckSplits(outbox, tombstones, watermarks, h, id);
    AckedNumbered(h, id);
    AckedSeqsAfter(h, id, s);
    AckBinds(messages, h, id);
    assert LongestAcked(AckedSeqs(h, s), watermarks[s]);
    WatermarkIsPrefix(marked, tombstones, watermarks, Acked(h, id), s, open, largest, w);
    MovedExact(watermarks, h, id, w);
    WidenSplits(marked, tombstones, watermarks, Acked(h, id), watermarks[s := w]);
  }

  /** The watermark of a session after one more of its rows is acknowledged: before the first row
      still open, or at the last row if none is, and never lower than it was. */
  method AdvanceWatermark(outbox: map<Name, Row>, tombstones: map<Name, Tombstone>, watermarks: map<Name, nat>,
                          messages: map<(Name, Name), Name>, id: Name, s: Name, ghost h: History)
    returns (marked: map<Name, Row>, next: map<Name, nat>, ghost g: History)
    requires Consistent(outbox, tombstones, watermarks, messages, h)
    requires id in outbox && outbox[id].envelope.sessionId == s
    ensures marked == outbox[id := outbox[id].(acknowledged := true)]
    ensures id in h && g == Acked(h, id) && s in next
    ensures Consistent(marked, tombstones, next, messages, g)
  {
    RowSession(outbox, tombstones, watermarks, h, id);
    marked := outbox[id := outbox[id].(acknowledged := true)];
    var current := watermarks[s];
    var open := FindFirstOpen(marked, s, current);
    var largest := FindLargestRow(marked, s);
    var w := if open.Some? then open.value - 1 else if largest > current then largest else current;
    AckConsistent(outbox, tombstones, watermarks, messages, h, id, open, largest, w);
    next := watermarks[s := w];
    g := Acked(h, id);
  }

  /** Whether another command of the session already carries the message. */
  predicate IsTaken(messages: map<(Name, Name), Name>, s: Name, command: Command, ghost h: History)
    requires MessagesBound(messages, h)
    ensures IsTaken(messages, s, command, h) <==> MessageTaken(h, s, command)
  {
    TakenIsMapped(messages, h, s, command);
    MessageIdOf(command).Some? && (s, MessageIdOf(command).value) in messages
  }

  /** The history after a start: a fresh id with a message of its own takes the next sequence. */
  ghost function Begin(h: History, id: Name, s: Name, sentAt: string, command: Command): History {
    if id in h || MessageTaken(h, s, command) then h
    else h[id := Entry(CommandEnvelope(id, s, Last(h, s) + 1, sentAt, command), false)]
  }

  /** The history after an acknowledgement: only the command it names exactly is acknowledged. */
  function Confirm(h: History, id: Name, s: Name, n: nat): History {
    if id in h && h[id].envelope.sessionId == s && h[id].envelope.commandSeq == n then Acked(h, id) else h
  }

  /** The answer to a start with a fresh id, and the history after it. */
  ghost predicate NewAnswer(h: History, id: Name, s: Name, sentAt: string, command: Command, r: Outcome<Pinned>,
                            g: History) {
    if MessageTaken(h, s, command) then r.Refused? && g == h
    else
      var e := CommandEnvelope(id, s, Last(h, s) + 1, sentAt, command);
      r == Done(Pinned(id, s, e.commandSeq, Some(e))) && g == h[id := Entry(e, false)]
  }

  /** The tables after a start with a fresh id: the row of the command, its session, and its
      message. */
  method Allocate(outbox: map<Name, Row>, tombstones: map<Name, Tombstone>, watermarks: map<Name, nat>,
                  messages: map<(Name, Name), Name>, id: Name, s: Name, sentAt: string, command: Command,
                  ghost h: History)
    returns (r: Outcome<Pinned>, rows: map<Name, Row>, sessions: map<Name, nat>, next: map<(Name, Name), Name>,
             ghost g: History)
    requires Consistent(outbox, tombstones, watermarks, messages, h) && id !in h
    ensures NewAnswer(h, id, s, sentAt, command, r, g)
    ensures Consistent(rows, tombstones, sessions, next, g)
  {
    if IsTaken(messages, s, command, h) {
      return Refused(ProtocolIntegrity), outbox, watermarks, messages, h;
    }
    var last := LastAllocated(outbox, tombstones, watermarks, s, h);
    var e := CommandEnvelope(id, s, last + 1, sentAt, command);
    next := if MessageIdOf(command).Some? then messages[(s, MessageIdOf(command).value) := id] else messages;
    InsertConsistent(outbox, tombstones, watermarks, messages, h, e, next);
    rows, sessions, g := outbox[id := Row(e, false)], WithSession(watermarks, s), h[id := Entry(e, false)];
    r := Done(Pinned(id, s, e.commandSeq, Some(e)));
  }

  /** The answer to a start that repeats a known command id. */
  predicate KnownAnswer(e: Entry, id: Name, s: Name, command: Command, r: Outcome<Pinned>) {
    && (r.Done? <==> e.envelope.sessionId == s && e.envelope.command == command)
    && (r.Done? ==> r.value.commandId == id && r.value.sessionId == s && r.value.commandSeq == e.envelope.commandSeq)
    && (r.Done? && r.value.payload.Some? ==> r.value.payload == Some(e.envelope))
  }

  predicate Placed(a: CommandEnvelope, b: CommandEnvelope) {
    a.sessionId == b.sessionId && a.commandSeq == b.commandSeq
  }

  predicate SentBefore(a: CommandEnvelope, b: CommandEnvelope) {
    a.sessionId < b.sessionId || (a.sessionId == b.sessionId && a.commandSeq < b.commandSeq)
  }

  predicate InSendingOrder(es: seq<CommandEnvelope>) {
    forall i, j | 0 <= i < j < |es| :: SentBefore(es[i], es[j])
  }

  method Least(es: set<CommandEnvelope>) returns (e: CommandEnvelope)
    requires es != {} && forall a, b | a in es && b in es && Placed(a, b) :: a == b
    ensures e in es && forall b | b in es && b != e :: SentBefore(e, b)
  {
    e :| e in es;
    var rest := es - {e};
    while rest != {}
      invariant rest <= es && e in es && forall b | b in es && b !in rest && b != e :: SentBefore(e, b)
      decreases rest
    {
      var b :| b in rest;
      if SentBefore(b, e) {
        e := b;
      } else {
        assert b == e || SentBefore(e, b) || Placed(b, e);
      }
      rest := rest - {b};
    }
  }

  /** The commands by session and sequence. */
  method Ordered(es: set<CommandEnvelope>) returns (r: seq<CommandEnvelope>)
    requires forall a, b | a in es && b in es && Placed(a, b) :: a == b
    ensures (forall e :: e in r <==> e in es) && InSendingOrder(r)
  {
    r := [];
    var todo := es;
    while todo != {}
      invariant todo <= es && (forall e :: e in r <==> e in es && e !in todo)
      invariant InSendingOrder(r) && forall a, b | a in r && b in todo :: SentBefore(a, b)
      decreases todo
    {
      var e := Least(todo);
      r := r + [e];
      todo := todo - {e};
    }
  }

  class Outbox {
    var outbox: map<Name, Row>
    var tombstones: map<Name, Tombstone>
    var watermarks: map<Name, nat>
    var messages: map<(Name, Name), Name>
    ghost var history: History

    ghost predicate Valid()
      reads this
    {
      Consistent(outbox, tombstones, watermarks, messages, history)
    }

    constructor ()
      ensures Valid() && history == map[]
    {
      outbox, tombstones, watermarks, messages, history := map[], map[], map[], map[], map[];
      new;
      EmptyNumbered();
    }

    /** Allocate the next sequence of a session for a new command id. A known id gets its own
        command again if it asks for the same one, and an error if it does not; a message already
        carried by another command is refused. */
    method StartCommand(id: Name, s: Name, sentAt: string, command: Command) returns (r: Outcome<Pinned>)
      requires Valid()
      modifies this
      ensures Valid()
      ensures id in old(history) ==>
        && history == old(history) && KnownAnswer(old(history)[id], id, s, command, r)
        && (r.Done? ==> (r.value.payload.Some? <==> id in old(outbox)))
      ensures id !in old(history) ==> NewAnswer(old(history), id, s, sentAt, command, r, history)
      ensures history == Begin(old(history), id, s, sentAt, command)
    {
      if id in outbox || id in tombstones {
        r := StartKnown(id, s, sentAt, command);
      } else {
        r, outbox, watermarks, messages, history :=
          Allocate(outbox, tombstones, watermarks, messages, id, s, sentAt, command, history);
      }
    }

    method StartKnown(id: Name, s: Name, sentAt: string, command: Command) returns (r: Outcome<Pinned>)
      requires Valid() && id in history
      ensures KnownAnswer(history[id], id, s, command, r) && (r.Done? ==> (r.value.payload.Some? <==> id in outbox))
    {
      if id in outbox {
        var row := outbox[id];
        assert history[id].envelope == row.envelope && row.envelope.commandId == id;
        if row.envelope.sessionId != s
           || Identity(row.envelope) != Identity(CommandEnvelope(id, s, row.envelope.commandSeq, sentAt, command)) {
          return Refused(ProtocolIntegrity);
        }
        return Done(Pinned(id, s, row.envelope.commandSeq, Some(row.envelope)));
      }
      var t := tombstones[id];
      assert Buries(t, watermarks, history[id]);
      if t.sessionId != s
         || t.identity != OfCommand(Identity(CommandEnvelope(id, s, t.commandSeq, sentAt, command))) {
        return Refused(ProtocolIntegrity);
      }
      return Done(Pinned(id, s, t.commandSeq, None));
    }

    /** Acknowledge a command, move the watermark and compact. A repeated acknowledgement, even of
        a buried command, changes nothing and reports the same watermark. */
    method AcknowledgeCommand(id: Name, s: Name, n: nat) returns (r: Outcome<nat>)
      requires Valid()
      modifies this
      ensures Valid()
      ensures r.Done? <==>
        id in old(history) && old(history)[id].envelope.sessionId == s && old(history)[id].envelope.commandSeq == n
      ensures history == Confirm(old(history), id, s, n)
      ensures r.Done? ==>
        && history == Acked(old(history), id)
        && LongestAcked(AckedSeqs(history, s), r.value)
        && (forall jd | jd in outbox && outbox[jd].envelope.sessionId == s && outbox[jd].acknowledged ::
              outbox[jd].envelope.commandSeq > r.value)
      ensures forall jd | jd in old(outbox) && !old(outbox)[jd].acknowledged && jd != id ::
        jd in outbox && outbox[jd] == old(outbox)[jd]
    {
      var sent := WasSent(id, s, n);
      if !sent {
        return Refused(ProtocolIntegrity);
      }
      if id in outbox {
        MarkAcknowledged(id, s);
      } else {
        assert Buries(tombstones[id], watermarks, history[id]);
        AgainExact(watermarks, history, id);
      }
      var w := watermarks[s];
      CompactCommands(s);
      return Done(w);
    }

    /** Whether the command was sent with this sequence, by its row or its tombstone. */
    method WasSent(id: Name, s: Name, n: nat) returns (sent: bool)
      requires Valid()
      ensures sent <==> id in history && history[id].envelope.sessionId == s && history[id].envelope.commandSeq == n
    {
      if n == 0 {
        return false;
      }
      if id in outbox {
        return outbox[id].envelope.sessionId == s && outbox[id].envelope.commandSeq == n;
      }
      if id in tombstones {
        assert Buries(tombstones[id], watermarks, history[id]);
        return tombstones[id].sessionId == s && tombstones[id].commandSeq == n;
      }
      return false;
    }

    /** The commands to send again: exactly those not acknowledged, each as it was first sent, by session
        and sequence. */
    method UnacknowledgedCommands() returns (es: seq<CommandEnvelope>)
      requires Valid()
      ensures forall e :: e in es <==>
        e.commandId in history && !history[e.commandId].acknowledged && history[e.commandId].envelope == e
      ensures InSendingOrder(es)
    {
      var rows := set id | id in outbox && !outbox[id].acknowledged :: outbox[id].envelope;
      forall e ensures e in rows <==>
        e.commandId in history && !history[e.commandId].acknowledged && history[e.commandId].envelope == e
      {
        assert e.commandId in tombstones ==> Buries(tombstones[e.commandId], watermarks, history[e.commandId]);
        assert e.commandId in outbox ==> history[e.commandId].envelope == outbox[e.commandId].envelope;
      }
      forall a, b | a in rows && b in rows && Placed(a, b) ensures a == b {
        assert SameSlot(history, a.commandId, b.commandId);
      }
      es := Ordered(rows);
    }

    /** Mark one row and recompute the watermark of its session from the rows. */
    method MarkAcknowledged(id: Name, s: Name)
      requires Valid() && id in outbox && outbox[id].envelope.sessionId == s
      modifies this
      ensures Valid() && s in watermarks && history == Acked(old(history), id)
      ensures outbox == old(outbox)[id := old(outbox)[id].(acknowledged := true)]
    {
      var marked, next, after := AdvanceWatermark(outbox, tombstones, watermarks, messages, id, s, history);
      outbox, watermarks, history := marked, next, after;
    }

    /** Move acknowledged rows at or below the watermark to tombstones. */
    method CompactCommands(s: Name)
      requires Valid() && s in watermarks
      modifies this
      ensures Valid() && history == old(history) && watermarks == old(watermarks) && messages == old(messages)
      ensures outbox == KeptRows(old(outbox), s, watermarks[s])
      ensures forall id | id in old(outbox) ::
        id !in outbox <==> old(outbox)[id].envelope.sessionId == s && old(outbox)[id].acknowledged
                           && old(outbox)[id].envelope.commandSeq <= watermarks[s]
      ensures tombstones == old(tombstones) + BuriedRows(old(outbox), s, watermarks[s])
    {
      CompactionSplits(outbox, tombstones, watermarks, history, s);
      var w := watermarks[s];
      tombstones := tombstones + BuriedRows(outbox, s, w);
      outbox := KeptRows(outbox, s, w);
    }
  }
}
