/** A contiguous watermark with a sparse list above it is a set of acknowledged sequences.
    The loops that move such a cursor, on the server and in the journal, are set operations. */
module EventCursor {
  import opened Protocol
  import opened DeliveryLedger

  /** A list that is ascending and lies above the watermark. */
  predicate Canonical(through: nat, sparse: seq<nat>) {
    Ascending(sparse) && forall n | n in sparse :: n > through
  }

  /** The watermark is the whole contiguous prefix of the set. */
  predicate Tight(through: nat, sparse: seq<nat>) {
    through + 1 !in sparse
  }

  /** `k` is the longest prefix 1..k inside the acknowledged set. */
  predicate LongestAcked(acked: set<nat>, k: nat) {
    k + 1 !in acked && forall n | 1 <= n <= k :: n in acked
  }

  lemma {:induction false} AscendingUnique(a: seq<nat>, b: seq<nat>)
    requires Ascending(a) && Ascending(b) && forall n :: n in a <==> n in b
    ensures a == b
  {
    if |a| > 0 && |b| > 0 {
      var i, j := |a| - 1, |b| - 1;
      assert a[i] in b && b[j] in a;
      assert a[i] == b[j];
      forall n | n in a[..i] ensures n in b[..j] {
        assert n in b && n < a[i];
      }
      forall n | n in b[..j] ensures n in a[..i] {
        assert n in a && n < b[j];
      }
      AscendingUnique(a[..i], b[..j]);
      assert a == a[..i] + [a[i]] && b == b[..j] + [b[j]];
    } else {
      SameEmptiness(a, b);
    }
  }

  lemma SameEmptiness(a: seq<nat>, b: seq<nat>)
    requires forall n :: n in a <==> n in b
    ensures a == [] <==> b == []
  {
    if |a| > 0 {
      assert a[0] in a;
    }
    if |b| > 0 {
      assert b[0] in b;
    }
  }

  /** A set has one tight cursor: two that stand for it are equal. */
  lemma CursorUnique(t: nat, s: seq<nat>, u: nat, r: seq<nat>)
    requires Canonical(t, s) && Tight(t, s) && Canonical(u, r) && Tight(u, r)
    requires AckSet(t, s) == AckSet(u, r)
    ensures t == u && s == r
  {
    assert t + 1 !in AckSet(t, s) && u + 1 !in AckSet(u, r);
    assert t == u;
    forall n ensures n in s <==> n in r {
      assert n in s <==> n in AckSet(t, s) && n > t;
      assert n in r <==> n in AckSet(u, r) && n > u;
    }
    AscendingUnique(s, r);
  }

  /* ---- Sorting and merging sparse lists ---- */

  function Insert(s: seq<nat>, v: nat): (r: seq<nat>)
    requires Ascending(s)
    ensures Ascending(r) && forall n :: n in r <==> n in s || n == v
  {
    if s == [] then [v]
    else
      var n := |s| - 1;
      assert s == s[..n] + [s[n]] && forall k | 0 <= k < n :: s[k] < s[n];
      if s[n] < v then s + [v]
      else if s[n] == v then s
      else
        var r := Insert(s[..n], v);
        assert forall k | 0 <= k < |r| :: r[k] in r && r[k] < s[n];
        r + [s[n]]
  }

  /** Sort a list of sequences and drop repetitions. */
  method SortDedup(values: seq<nat>) returns (r: seq<nat>)
    ensures Ascending(r) && forall n :: n in r <==> n in values
  {
    r := [];
    var i := 0;
    while i < |values|
      invariant i <= |values| && Ascending(r)
      invariant forall n :: n in r <==> n in values[..i]
    {
      assert values[..i + 1] == values[..i] + [values[i]];
      r := Insert(r, values[i]);
      i := i + 1;
    }
    assert values[..i] == values;
  }

  /** Keep what lies above a watermark. */
  method RetainAbove(s: seq<nat>, through: nat) returns (r: seq<nat>)
    requires Ascending(s)
    ensures Canonical(through, r) && forall n :: n in r <==> n in s && n > through
    ensures |r| <= |s| && ((exists n | n in s :: n <= through) ==> |r| < |s|)
  {
    r := [];
    var i := 0;
    while i < |s|
      invariant i <= |s| && |r| <= i
      invariant Ascending(r) && forall n :: n in r <==> n in s[..i] && n > through
      invariant (exists n | n in s[..i] :: n <= through) ==> |r| < i
    {
      assert s[..i + 1] == s[..i] + [s[i]];
      if s[i] > through {
        forall k | 0 <= k < |r| ensures r[k] < s[i] {
          assert r[k] in r && r[k] in s[..i];
        }
        r := r + [s[i]];
      }
      i := i + 1;
    }
    assert s[..i] == s;
  }

  /* ---- The server's cursor ---- */

  ghost function Over(sparse: seq<nat>, n: nat): set<nat> {
    set k | k in sparse && k >= n
  }

  ghost predicate FirstMissing(through: nat, sparse: seq<nat>, n: nat) {
    n > through && n !in sparse && forall k | through < k < n :: k in sparse
  }

  /** The next sequence the server expects: the first one above the watermark that is not
      already handled. */
  method ExpectedSequence(through: nat, sparse: seq<nat>) returns (expected: nat)
    ensures FirstMissing(through, sparse, expected)
  {
    expected := through + 1;
    while expected in sparse
      invariant expected > through && forall k | through < k < expected :: k in sparse
      decreases Over(sparse, expected)
    {
      assert expected in Over(sparse, expected);
      assert expected !in Over(sparse, expected + 1);
      expected := expected + 1;
    }
  }

  method RemoveValue(s: seq<nat>, v: nat) returns (r: seq<nat>)
    requires Ascending(s) && v in s
    ensures Ascending(r) && |r| == |s| - 1
    ensures forall n :: n in r <==> n in s && n != v
  {
    var i := 0;
    while s[i] != v
      invariant i < |s| && v !in s[..i]
      decreases |s| - i
    {
      assert s[..i + 1] == s[..i] + [s[i]];
      assert s == s[..i + 1] + s[i + 1..];
      i := i + 1;
    }
    r := s[..i] + s[i + 1..];
    assert s == s[..i] + [s[i]] + s[i + 1..];
    forall n ensures n in r <==> n in s && n != v {
      assert n in s[i + 1..] ==> n > v;
    }
  }

  /** The watermark update of the generic event ledger. Under its gap guard it adds exactly the
      new sequence to the set, whatever the sparse list held. */
  method AdvanceGeneric(through: nat, sparse: seq<nat>, sequence: nat) returns (t: nat, s: seq<nat>)
    requires Canonical(through, sparse) && sequence > through
    requires forall k | through < k < sequence :: k in sparse
    ensures AckSet(t, s) == AckSet(through, sparse) + {sequence}
    ensures Canonical(t, s) && Tight(t, s)
  {
    t, s := sequence, sparse;
    while t + 1 in s
      invariant t >= sequence && Ascending(s)
      invariant forall k | 1 <= k <= t :: k in AckSet(through, sparse) + {sequence}
      invariant forall k :: k in s ==> k in sparse
      invariant forall k :: k in sparse && k > t ==> k in s
      decreases |s|
    {
      var next := t + 1;
      s := RemoveValue(s, next);
      t := next;
    }
    s := RetainAbove(s, t);
  }

  /** The watermark update of the clarification projection: the same set operation, and on a
      tight cursor the very same cursor. */
  method AdvanceProjection(through: nat, sparse: seq<nat>, sequence: nat) returns (t: nat, s: seq<nat>)
    requires Canonical(through, sparse)
    ensures AckSet(t, s) == AckSet(through, sparse) + if sequence > through then {sequence} else {}
    ensures Tight(through, sparse) ==> Canonical(t, s) && Tight(t, s)
  {
    t, s := through, sparse;
    if sequence > through {
      if sequence == through + 1 {
        t := sequence;
        while true
          invariant t >= sequence && Ascending(s)
          invariant forall k | 1 <= k <= t :: k in AckSet(through, sparse) + {sequence}
          invariant forall k :: k in s ==> k in sparse && (k > t || k == sequence)
          invariant forall k :: k in sparse && k > t ==> k in s
          decreases |s|
        {
          var next := t + 1;
          if next !in s {
            break;
          }
          s := RemoveValue(s, next);
          t := next;
        }
      } else if sequence !in sparse {
        s := SortDedup(sparse + [sequence]);
      }
    }
  }

  /** Under the gap guard a tight cursor admits only the sequence after its watermark, so its
      sparse list never grows, and both updates produce the one tight cursor of the same set. */
  lemma VersionsAgree(through: nat, sparse: seq<nat>, sequence: nat, expected: nat,
                      t: nat, s: seq<nat>, u: nat, r: seq<nat>)
    requires Canonical(through, sparse) && Tight(through, sparse)
    requires FirstMissing(through, sparse, expected) && through < sequence <= expected
    requires Canonical(t, s) && Tight(t, s) && AckSet(t, s) == AckSet(through, sparse) + {sequence}
    requires Canonical(u, r) && Tight(u, r) && AckSet(u, r) == AckSet(through, sparse) + {sequence}
    ensures sequence == through + 1 && t == u && s == r
  {
    assert expected == through + 1;
    CursorUnique(t, s, u, r);
  }
}
