/** Paged conversation history: pages chained by offset, messages merged by id, and the repair that
    refetches what was loaded. Times and ids are numbers standing for texts in their order. */
module ConversationHistory {
  import opened Protocol

  datatype Message = Message(id: nat, createdAt: nat)

  datatype Page = Page(messages: seq<Message>, next: Option<nat>)

  datatype Slice = Slice(offset: nat, page: Page)

  datatype History = History(
    pages: seq<Slice>, messages: seq<Message>, nextOffset: Option<nat>, endOffset: nat, reachedEnd: bool)

  predicate Less(a: Message, b: Message) {
    a.createdAt < b.createdAt || (a.createdAt == b.createdAt && a.id < b.id)
  }

  predicate Sorted(s: seq<Message>) {
    forall i, j | 0 <= i < j < |s| :: Less(s[i], s[j])
  }

  predicate UniqueIds(s: seq<Message>) {
    forall i, j | 0 <= i < j < |s| :: s[i].id != s[j].id
  }

  /** The server's list: in order, every id once. */
  predicate Canonical(list: seq<Message>) {
    Sorted(list) && UniqueIds(list)
  }

  /** One page of the server's list: one more row than asked for tells whether there is a next. */
  function FetchPage(list: seq<Message>, offset: nat, limit: nat): Page {
    var start := if offset < |list| then offset else |list|;
    var rows := if |list| - start > limit + 1 then list[start..start + limit + 1] else list[start..];
    if |rows| > limit then Page(rows[..limit], Some(offset + limit)) else Page(rows, None)
  }

  /* ---- Merging ---- */

  function ById(messages: seq<Message>): map<nat, Message> {
    if messages == [] then map[]
    else ById(messages[..|messages| - 1])[messages[|messages| - 1].id := messages[|messages| - 1]]
  }

  function Concat(pages: seq<Slice>): seq<Message> {
    if pages == [] then [] else Concat(pages[..|pages| - 1]) + pages[|pages| - 1].page.messages
  }

  function Insert(s: seq<Message>, m: Message): (r: seq<Message>)
    requires Sorted(s) && forall x | x in s :: x.id != m.id
    ensures Sorted(r) && forall x :: x in r <==> x in s || x == m
  {
    if s == [] then [m]
    else
      var n := |s| - 1;
      assert s == s[..n] + [s[n]] && forall k | 0 <= k < n :: Less(s[k], s[n]);
      if Less(s[n], m) then s + [m]
      else
        assert s[n] in s;
        var r := Insert(s[..n], m);
        assert forall k | 0 <= k < |r| :: r[k] in r && Less(r[k], s[n]);
        r + [s[n]]
  }

  lemma {:induction false} ByIdKeyed(messages: seq<Message>)
    ensures forall id | id in ById(messages) :: ById(messages)[id].id == id
    ensures forall x: Message :: x.id in ById(messages) && ById(messages)[x.id] == x ==> x in messages
    ensures UniqueIds(messages) ==> forall x | x in messages :: x.id in ById(messages) && ById(messages)[x.id] == x
  {
    if messages != [] {
      var n := |messages| - 1;
      ByIdKeyed(messages[..n]);
      assert messages == messages[..n] + [messages[n]];
      if UniqueIds(messages) {
        forall x | x in messages[..n] ensures x.id != messages[n].id {
        }
      }
    }
  }

  /** Merge pages: the last message of each id, in order. */
  method MergeMessages(pages: seq<Slice>) returns (r: seq<Message>)
    ensures Sorted(r)
    ensures forall m: Message :: m in r <==> m.id in ById(Concat(pages)) && ById(Concat(pages))[m.id] == m
  {
    var byId: map<nat, Message> := map[];
    var i := 0;
    while i < |pages|
      invariant i <= |pages| && byId == ById(Concat(pages[..i]))
    {
      var page := pages[i].page.messages;
      assert pages[..i + 1][..i] == pages[..i];
      ghost var before := Concat(pages[..i]);
      var j := 0;
      assert before + page[..0] == before;
      while j < |page|
        invariant j <= |page| && byId == ById(before + page[..j])
      {
        assert (before + page[..j + 1])[..|before| + j] == before + page[..j];
        byId := byId[page[j].id := page[j]];
        j := j + 1;
      }
      assert page[..j] == page;
      i := i + 1;
    }
    assert pages[..i] == pages;
    ByIdKeyed(Concat(pages));
    r := SortValues(byId);
  }

  method SortValues(m: map<nat, Message>) returns (r: seq<Message>)
    requires forall id | id in m :: m[id].id == id
    ensures Sorted(r) && forall x: Message :: x in r <==> x.id in m && m[x.id] == x
  {
    r := [];
    var todo := m.Keys;
    while todo != {}
      invariant todo <= m.Keys && Sorted(r)
      invariant forall x: Message :: x in r <==> x.id in m && x.id !in todo && m[x.id] == x
      decreases todo
    {
      var id :| id in todo;
      r := Insert(r, m[id]);
      todo := todo - {id};
    }
  }

  lemma {:induction false} SortedSame(a: seq<Message>, b: seq<Message>)
    requires Sorted(a) && Sorted(b) && forall m :: m in a <==> m in b
    ensures a == b
  {
    assert a != [] ==> a[0] in a;
    assert b != [] ==> b[0] in b;
    if a != [] {
      var n, k := |a| - 1, |b| - 1;
      assert a[n] in b && b[k] in a;
      assert a[n] == b[k];
      forall m | m in a[..n] ensures m in b[..k] {
        assert m in b && Less(m, a[n]);
      }
      forall m | m in b[..k] ensures m in a[..n] {
        assert m in a && Less(m, b[k]);
      }
      SortedSame(a[..n], b[..k]);
      assert a == a[..n] + [a[n]] && b == b[..k] + [b[k]];
    }
  }

  /* ---- Chaining ---- */

  function ByOffset(pages: seq<Slice>): map<nat, Slice> {
    if pages == [] then map[]
    else ByOffset(pages[..|pages| - 1])[pages[|pages| - 1].offset := pages[|pages| - 1]]
  }

  ghost function From(m: map<nat, Slice>, offset: nat): set<nat> {
    set k | k in m && k >= offset
  }

  /** The chain that starts at an offset: page after page as each names the next. */
  ghost function Follow(m: map<nat, Slice>, offset: nat): seq<Slice>
    decreases From(m, offset)
  {
    if offset !in m then []
    else
      var next := m[offset].page.next;
      if next.None? || next.value <= offset then [m[offset]]
      else
        assert offset in From(m, offset) && offset !in From(m, next.value);
        [m[offset]] + Follow(m, next.value)
  }

  lemma FollowStep(m: map<nat, Slice>, chain: seq<Slice>, offset: nat)
    requires offset in m
    ensures var next := m[offset].page.next;
      chain + Follow(m, offset)
      == if next.None? || next.value <= offset then chain + [m[offset]]
         else (chain + [m[offset]]) + Follow(m, next.value)
  {
  }

  datatype Chain = Chain(pages: seq<Slice>, endOffset: nat, nextOffset: Option<nat>, reachedEnd: bool)

  /** Follow the pages from offset 0. The set of visited offsets is never needed to stop: every
      step goes to a larger offset. */
  method ContiguousPages(pages: seq<Slice>) returns (r: Chain)
    ensures r.pages == Follow(ByOffset(pages), 0)
    ensures r.pages != [] ==>
      var z := r.pages[|r.pages| - 1];
      && r.endOffset == z.offset + |z.page.messages| && r.nextOffset == z.page.next
      && r.reachedEnd == z.page.next.None?
    ensures r.pages == [] ==> r == Chain([], 0, None, false)
  {
    var byOffset := ByOffset(pages);
    KeyedByOffset(pages);
    var chain: seq<Slice> := [];
    var visited: set<nat> := {};
    var offset, endOffset := 0, 0;
    var nextOffset: Option<nat> := None;
    var reachedEnd := false;
    while offset !in visited
      invariant offset >= 0 && forall k | k in visited :: k < offset
      invariant chain + Follow(byOffset, offset) == Follow(byOffset, 0)
      invariant !reachedEnd
      invariant if chain == [] then endOffset == 0 && nextOffset == None
                else var z := chain[|chain| - 1];
                     endOffset == z.offset + |z.page.messages| && nextOffset == z.page.next && z.page.next.Some?
      decreases From(byOffset, offset)
    {
      if offset !in byOffset {
        break;
      }
      var slice := byOffset[offset];
      FollowStep(byOffset, chain, offset);
      visited := visited + {offset};
      chain := chain + [slice];
      endOffset := offset + |slice.page.messages|;
      nextOffset := slice.page.next;
      if nextOffset.None? {
        reachedEnd := true;
        break;
      }
      if nextOffset.value <= offset {
        break;
      }
      assert offset in From(byOffset, offset) && offset !in From(byOffset, nextOffset.value);
      offset := nextOffset.value;
    }
    return Chain(chain, endOffset, nextOffset, reachedEnd);
  }

  lemma {:induction false} KeyedByOffset(pages: seq<Slice>)
    ensures forall k | k in ByOffset(pages) :: ByOffset(pages)[k].offset == k && ByOffset(pages)[k] in pages
    ensures forall s | s in pages :: s.offset in ByOffset(pages)
  {
    if pages != [] {
      KeyedByOffset(pages[..|pages| - 1]);
      assert pages == pages[..|pages| - 1] + [pages[|pages| - 1]];
    }
  }

  /* ---- Loaded histories ---- */

  /** A page fetched from this list, or from an earlier state of it. */
  predicate Matches(s: Slice, list: seq<Message>, limit: nat) {
    var n := |s.page.messages|;
    && n <= limit && s.offset + n <= |list| && s.page.messages == list[s.offset..s.offset + n]
    && (s.page.next.Some? ==> n == limit && s.page.next.value == s.offset + limit < |list|)
  }

  /** Pages from offset 0 on, each naming the next. */
  predicate Linked(pages: seq<Slice>, list: seq<Message>, limit: nat) {
    && pages != [] && pages[0].offset == 0
    && (forall k | 0 <= k < |pages| :: Matches(pages[k], list, limit))
    && forall k | 0 < k < |pages| :: NextTo(pages, k)
  }

  predicate NextTo(pages: seq<Slice>, k: nat)
    requires 0 < k < |pages|
  {
    pages[k - 1].page.next == Some(pages[k].offset)
  }

  lemma ShorterLinked(pages: seq<Slice>, list: seq<Message>, limit: nat)
    requires Linked(pages, list, limit) && |pages| > 1
    ensures Linked(pages[..|pages| - 1], list, limit)
  {
    var shorter := pages[..|pages| - 1];
    forall k | 0 < k < |shorter| ensures NextTo(shorter, k) {
      assert NextTo(pages, k);
    }
  }

  function EndOf(pages: seq<Slice>): nat
    requires pages != []
  {
    var z := pages[|pages| - 1];
    z.offset + |z.page.messages|
  }

  /** A history holds exactly the first messages of the list. */
  predicate Good(h: History, list: seq<Message>, limit: nat) {
    && Linked(h.pages, list, limit)
    && h.endOffset == EndOf(h.pages) && h.messages == list[..h.endOffset]
    && h.nextOffset == h.pages[|h.pages| - 1].page.next && (h.reachedEnd <==> h.nextOffset.None?)
  }

  lemma FetchMatches(list: seq<Message>, offset: nat, limit: nat)
    requires limit >= 1 && offset <= |list|
    ensures Matches(Slice(offset, FetchPage(list, offset, limit)), list, limit)
    ensures var p := FetchPage(list, offset, limit); p.next.None? ==> offset + |p.messages| == |list|
    ensures offset < |list| ==> FetchPage(list, offset, limit).messages != []
  {
  }

  /** What matched an earlier list matches every later one. */
  lemma MatchesLater(pages: seq<Slice>, list: seq<Message>, later: seq<Message>, limit: nat)
    requires Linked(pages, list, limit) && list <= later
    ensures Linked(pages, later, limit) && list[..EndOf(pages)] == later[..EndOf(pages)]
  {
    forall k | 0 <= k < |pages| ensures Matches(pages[k], later, limit) {
      assert Matches(pages[k], list, limit);
    }
  }

  lemma {:induction false} OffsetsRise(pages: seq<Slice>, list: seq<Message>, limit: nat, i: nat, j: nat)
    requires Linked(pages, list, limit) && limit >= 1 && i < j < |pages|
    ensures pages[i].offset < pages[j].offset
    decreases j
  {
    assert Matches(pages[j - 1], list, limit) && NextTo(pages, j);
    if i < j - 1 {
      OffsetsRise(pages, list, limit, i, j - 1);
    }
  }

  lemma {:induction false} OffsetFound(pages: seq<Slice>, list: seq<Message>, limit: nat, k: nat)
    requires Linked(pages, list, limit) && limit >= 1 && k < |pages|
    ensures pages[k].offset in ByOffset(pages) && ByOffset(pages)[pages[k].offset] == pages[k]
    decreases |pages|
  {
    var n := |pages| - 1;
    if k < n {
      OffsetsRise(pages, list, limit, k, n);
      var shorter := pages[..n];
      ShorterLinked(pages, list, limit);
      OffsetFound(shorter, list, limit, k);
    }
  }

  lemma {:induction false} FollowsFrom(pages: seq<Slice>, list: seq<Message>, limit: nat, k: nat)
    requires Linked(pages, list, limit) && limit >= 1 && k < |pages|
    ensures Follow(ByOffset(pages), pages[k].offset) == pages[k..]
    decreases |pages| - k
  {
    OffsetFound(pages, list, limit, k);
    assert Matches(pages[k], list, limit);
    if k + 1 < |pages| {
      FollowsFrom(pages, list, limit, k + 1);
      assert NextTo(pages, k + 1);
      assert pages[k..] == [pages[k]] + pages[k + 1..];
    } else {
      assert pages[k..] == [pages[k]];
      if pages[k].page.next.Some? {
        NothingBeyond(pages, list, limit);
      }
    }
  }

  lemma {:induction false} KeyIndex(pages: seq<Slice>, k: nat) returns (i: nat)
    requires k in ByOffset(pages)
    ensures i < |pages| && pages[i].offset == k
  {
    i := |pages| - 1;
    if pages[i].offset != k {
      i := KeyIndex(pages[..i], k);
    }
  }

  lemma NothingBeyond(pages: seq<Slice>, list: seq<Message>, limit: nat)
    requires Linked(pages, list, limit) && limit >= 1 && pages[|pages| - 1].page.next.Some?
    ensures pages[|pages| - 1].page.next.value !in ByOffset(pages)
    ensures forall s | s in pages :: s.offset < pages[|pages| - 1].page.next.value
  {
    var z := |pages| - 1;
    assert Matches(pages[z], list, limit);
    forall i | 0 <= i < |pages| ensures pages[i].offset <= pages[z].offset {
      if i < z {
        OffsetsRise(pages, list, limit, i, z);
      }
    }
    forall k | k in ByOffset(pages) ensures k <= pages[z].offset {
      var i := KeyIndex(pages, k);
    }
  }

  /** Linked pages laid end to end are a prefix of the list. */
  lemma {:induction false} ConcatIsPrefix(pages: seq<Slice>, list: seq<Message>, limit: nat)
    requires Linked(pages, list, limit)
    ensures Concat(pages) == list[..EndOf(pages)]
    decreases |pages|
  {
    var n := |pages| - 1;
    assert Matches(pages[n], list, limit);
    if n == 0 {
      assert pages[..0] == [];
    } else {
      var shorter := pages[..n];
      ShorterLinked(pages, list, limit);
      ConcatIsPrefix(shorter, list, limit);
      assert NextTo(pages, n) && Matches(pages[n - 1], list, limit);
    }
  }

  lemma PrefixCanonical(list: seq<Message>, n: nat)
    requires Canonical(list) && n <= |list|
    ensures Canonical(list[..n])
  {
  }

  /** Build a history from linked pages: the chain is all of them and the messages are the prefix. */
  method BuildHistory(pages: seq<Slice>, ghost list: seq<Message>, limit: nat) returns (h: History)
    requires Linked(pages, list, limit) && Canonical(list) && limit >= 1
    ensures Good(h, list, limit) && h.pages == pages
  {
    var chain := ContiguousPages(pages);
    FollowsFrom(pages, list, limit, 0);
    assert pages[0..] == pages;
    var messages := MergeMessages(chain.pages);
    ConcatIsPrefix(pages, list, limit);
    assert Matches(pages[|pages| - 1], list, limit);
    PrefixCanonical(list, EndOf(pages));
    ByIdKeyed(Concat(pages));
    SortedSame(messages, list[..EndOf(pages)]);
    h := History(chain.pages, messages, chain.nextOffset, chain.endOffset, chain.reachedEnd);
  }

  method LoadHistory(list: seq<Message>, limit: nat) returns (h: History)
    requires Canonical(list) && limit >= 1
    ensures Good(h, list, limit)
    ensures |h.pages| == 1 && h.endOffset == if |list| < limit then |list| else limit
  {
    FetchMatches(list, 0, limit);
    h := BuildHistory([Slice(0, FetchPage(list, 0, limit))], list, limit);
  }

  function Without(pages: seq<Slice>, offset: nat): seq<Slice> {
    if pages == [] then []
    else Without(pages[..|pages| - 1], offset)
         + if pages[|pages| - 1].offset != offset then [pages[|pages| - 1]] else []
  }

  lemma {:induction false} WithoutNothing(pages: seq<Slice>, offset: nat)
    requires forall s | s in pages :: s.offset != offset
    ensures Without(pages, offset) == pages
  {
    if pages != [] {
      assert pages == pages[..|pages| - 1] + [pages[|pages| - 1]];
      WithoutNothing(pages[..|pages| - 1], offset);
    }
  }

  /** Load the next page: the prefix grows by what the page brings. At the end nothing changes. */
  method AppendPage(current: History, list: seq<Message>, limit: nat, ghost earlier: seq<Message>) returns (h: History)
    requires Good(current, earlier, limit) && earlier <= list && Canonical(list) && limit >= 1
    ensures Good(h, list, limit)
    ensures if current.nextOffset.None? then h == current else h.endOffset > current.endOffset
    ensures current.nextOffset.Some? ==>
      && |h.pages| == |current.pages| + 1 && h.pages[..|current.pages|] == current.pages
      && h.endOffset == if |list| < current.endOffset + limit then |list| else current.endOffset + limit
  {
    MatchesLater(current.pages, earlier, list, limit);
    if current.nextOffset.None? {
      return current;
    }
    var offset := current.nextOffset.value;
    FetchMatches(list, offset, limit);
    var slice := Slice(offset, FetchPage(list, offset, limit));
    var pages := Without(current.pages, offset) + [slice];
    NothingBeyond(current.pages, list, limit);
    WithoutNothing(current.pages, offset);
    LinkedMore(current.pages, slice, list, limit);
    h := BuildHistory(pages, list, limit);
  }

  lemma LinkedMore(pages: seq<Slice>, slice: Slice, list: seq<Message>, limit: nat)
    requires Linked(pages, list, limit) && Matches(slice, list, limit)
    requires pages[|pages| - 1].page.next == Some(slice.offset)
    ensures Linked(pages + [slice], list, limit)
  {
    var more := pages + [slice];
    forall k | 0 < k < |more| ensures NextTo(more, k) {
      assert k < |pages| ==> NextTo(pages, k);
    }
  }

  /* ---- Repair ---- */

  /** The list as each request of a repair finds it: it only grows, and not for ever. */
  ghost predicate Growing(lists: nat -> seq<Message>, final: seq<Message>) {
    && Canonical(final) && (forall k :: lists(k) <= final)
    && forall i, j | 0 <= i <= j :: lists(i) <= lists(j)
  }

  function IdsOf(messages: seq<Message>): set<nat> {
    set m | m in messages :: m.id
  }

  /** One more page keeps the refetched pages linked, and the next request starts inside the list. */
  lemma RefreshKeeps(refreshed: seq<Slice>, lists: nat -> seq<Message>, k: nat, final: seq<Message>, offset: nat,
                     limit: nat)
    requires limit >= 1 && Growing(lists, final) && offset <= |lists(k)|
    requires if refreshed == [] then offset == 0
             else
               k >= 1 && Linked(refreshed, lists(k - 1), limit) && refreshed[|refreshed| - 1].page.next == Some(offset)
    ensures var page := FetchPage(lists(k), offset, limit);
      && Linked(refreshed + [Slice(offset, page)], lists(k), limit) && Canonical(lists(k))
      && (page.next.None? ==> offset + |page.messages| == |lists(k)|)
      && (page.next.Some? ==> offset < page.next.value <= |lists(k + 1)| && page.next.value <= |final|)
  {
    var page := FetchPage(lists(k), offset, limit);
    FetchMatches(lists(k), offset, limit);
    assert lists(k) <= lists(k + 1) <= final;
    PrefixCanonical(final, |lists(k)|);
    assert final[..|lists(k)|] == lists(k);
    if refreshed != [] {
      MatchesLater(refreshed, lists(k - 1), lists(k), limit);
      LinkedMore(refreshed, Slice(offset, page), lists(k), limit);
    }
  }

  lemma StillHeld(previous: History, lists: nat -> seq<Message>, k: nat, limit: nat, earlier: seq<Message>,
                  final: seq<Message>)
    requires Growing(lists, final) && Good(previous, earlier, limit) && earlier <= lists(0)
    ensures previous.endOffset <= |lists(k)|
  {
    assert lists(0) <= lists(k);
    assert Matches(previous.pages[|previous.pages| - 1], earlier, limit);
  }

  lemma ObservedMore(pages: seq<Slice>, slice: Slice)
    ensures IdsOf(Concat(pages + [slice])) == IdsOf(Concat(pages)) + IdsOf(slice.page.messages)
  {
    assert (pages + [slice])[..|pages|] == pages;
    var a, b := Concat(pages), slice.page.messages;
    assert forall m :: m in a + b <==> m in a || m in b;
  }

  /** With one more page, pages that reach as far as a history show all of its messages again. */
  lemma RangeObserved(previous: History, pages: seq<Slice>, slice: Slice, earlier: seq<Message>, list: seq<Message>,
                      limit: nat)
    requires Good(previous, earlier, limit) && earlier <= list && Linked(pages + [slice], list, limit)
    ensures IdsOf(Concat(pages + [slice])) == IdsOf(Concat(pages)) + IdsOf(slice.page.messages)
    ensures EndOf(pages + [slice]) == slice.offset + |slice.page.messages|
    ensures slice.offset + |slice.page.messages| >= previous.endOffset ==>
      IdsOf(previous.messages) <= IdsOf(Concat(pages)) + IdsOf(slice.page.messages)
  {
    var more := pages + [slice];
    ObservedMore(pages, slice);
    ConcatIsPrefix(more, list, limit);
    if EndOf(more) >= previous.endOffset {
      var z := previous.pages[|previous.pages| - 1];
      assert Matches(z, earlier, limit);
      assert previous.messages == list[..EndOf(more)][..previous.endOffset];
    }
  }

  /** Fetch again what a history held. The result is a prefix of the list that is no shorter than
      before, and the whole list if the history had reached the end; otherwise the pages before the last
      would not have been enough. The loop ends because every request starts further on in a finite
      list. */
  method RepairHistory(previous: History, lists: nat -> seq<Message>, limit: nat,
                       ghost earlier: seq<Message>, ghost final: seq<Message>)
    returns (h: History, fetches: nat)
    requires limit >= 1 && Growing(lists, final) && Good(previous, earlier, limit) && earlier <= lists(0)
    ensures fetches >= 1 && Good(h, lists(fetches - 1), limit)
    ensures h.endOffset >= previous.endOffset
    ensures previous.reachedEnd ==> h.reachedEnd && h.messages == lists(fetches - 1)
    ensures |h.pages| == fetches
    ensures !previous.reachedEnd && fetches > 1 ==> EndOf(h.pages[..fetches - 1]) < previous.endOffset
  {
    var previousIds := IdsOf(previous.messages);
    var refreshed: seq<Slice> := [];
    var observedIds: set<nat> := {};
    var requested: set<nat> := {};
    var offset := 0;
    fetches := 0;
    while offset !in requested
      invariant forall k | k in requested :: k < offset
      invariant fetches == |refreshed| && offset <= |lists(fetches)|
      invariant observedIds == IdsOf(Concat(refreshed))
      invariant refreshed != [] && !previous.reachedEnd ==> EndOf(refreshed) < previous.endOffset
      invariant if refreshed == [] then offset == 0
                else fetches >= 1 && Linked(refreshed, lists(fetches - 1), limit)
                     && refreshed[|refreshed| - 1].page.next == Some(offset)
      decreases |final| - offset
    {
      requested := requested + {offset};
      var list := lists(fetches);
      var page := FetchPage(list, offset, limit);
      RefreshKeeps(refreshed, lists, fetches, final, offset, limit);
      StillHeld(previous, lists, fetches, limit, earlier, final);
      RangeObserved(previous, refreshed, Slice(offset, page), earlier, list, limit);
      refreshed := refreshed + [Slice(offset, page)];
      observedIds := observedIds + IdsOf(page.messages);
      fetches := fetches + 1;
      var endOffset := offset + |page.messages|;
      var reobserved := previousIds <= observedIds;
      var rebuilt := endOffset >= previous.endOffset;
      if (if previous.reachedEnd then page.next.None? else rebuilt && reobserved) {
        break;
      }
      if page.next.None? || page.next.value <= offset {
        break;
      }
      offset := page.next.value;
    }
    h := BuildHistory(refreshed, lists(fetches - 1), limit);
    assert lists(fetches - 1)[..|lists(fetches - 1)|] == lists(fetches - 1);
  }
}
