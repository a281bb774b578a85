/** Names of the events the journal itself creates when a command finishes. They are built
    by text formatting from the command id, so their uniqueness is a fact about text. */
module EventIds {
  const RUNTIME_PREFIX := "runtime-"
  const UNKNOWN_PREFIX := "execution-unknown-"

  function Digit(d: nat): char
    requires d < 10
  {
    "0123456789"[d]
  }

  function Decimal(n: nat): (text: string)
    ensures |text| >= 1
    ensures forall i :: 0 <= i < |text| ==> text[i] != '-'
  {
    if n < 10 then [Digit(n)] else Decimal(n / 10) + [Digit(n % 10)]
  }

  function RuntimeEventId(commandId: string, index: nat): string {
    RUNTIME_PREFIX + commandId + "-" + Decimal(index)
  }

  function UnknownEventId(commandId: string): string {
    UNKNOWN_PREFIX + commandId
  }

  /** Ids the journal keeps for itself; callers of `append_event` choose from the others. */
  predicate Reserved(eventId: string) {
    RUNTIME_PREFIX <= eventId || UNKNOWN_PREFIX <= eventId
  }

  lemma {:induction false} DecimalInjective(m: nat, n: nat)
    requires Decimal(m) == Decimal(n)
    ensures m == n
  {
    var s, t := Decimal(m), Decimal(n);
    assert s[|s| - 1] == t[|t| - 1];
    assert m % 10 == n % 10 by {
      assert s[|s| - 1] == Digit(m % 10) && t[|t| - 1] == Digit(n % 10);
    }
    if m >= 10 && n >= 10 {
      assert s[..|s| - 1] == Decimal(m / 10) && t[..|t| - 1] == Decimal(n / 10);
      DecimalInjective(m / 10, n / 10);
    }
  }

  /** The last hyphen splits a runtime event id, whatever hyphens the command id holds. */
  lemma RuntimeEventIdInjective(c: string, i: nat, d: string, j: nat)
    requires RuntimeEventId(c, i) == RuntimeEventId(d, j)
    ensures c == d && i == j
  {
    var id, p := RuntimeEventId(c, i), |RUNTIME_PREFIX|;
    assert id[p + |c|] == '-' && id[p + |d|] == '-';
    assert id[p + |c| + 1..] == Decimal(i) && id[p + |d| + 1..] == Decimal(j);
    assert forall k :: p + |c| < k < |id| ==> id[k] == Decimal(i)[k - p - |c| - 1];
    assert forall k :: p + |d| < k < |id| ==> id[k] == Decimal(j)[k - p - |d| - 1];
    assert |c| == |d|;
    assert id[p..p + |c|] == c && id[p..p + |d|] == d;
    DecimalInjective(i, j);
  }

  lemma UnknownEventIdInjective(c: string, d: string)
    requires UnknownEventId(c) == UnknownEventId(d)
    ensures c == d
  {
    assert UnknownEventId(c)[|UNKNOWN_PREFIX|..] == c;
    assert UnknownEventId(d)[|UNKNOWN_PREFIX|..] == d;
  }

  lemma FamiliesApart(c: string, i: nat, d: string)
    ensures RuntimeEventId(c, i) != UnknownEventId(d)
    ensures Reserved(RuntimeEventId(c, i)) && Reserved(UnknownEventId(d))
  {
    assert RuntimeEventId(c, i)[0] == 'r' && UnknownEventId(d)[0] == 'e';
    assert RuntimeEventId(c, i)[..|RUNTIME_PREFIX|] == RUNTIME_PREFIX;
    assert UnknownEventId(d)[..|UNKNOWN_PREFIX|] == UNKNOWN_PREFIX;
  }
}
