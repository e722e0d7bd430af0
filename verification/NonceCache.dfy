/** The replay cache of the bootstrap authority: a set and a queue that together are a sliding window. */
module NonceCaches {

  const CAPACITY: nat := 4096

  datatype Entry = Entry(credential: seq<int>, nonce: seq<int>)

  /** The last `n` of the entries. */
  function Last(entries: seq<Entry>, n: nat): (r: seq<Entry>)
    ensures |r| <= n && |r| <= |entries|
  {
    if |entries| <= n then entries else entries[|entries| - n..]
  }

  predicate NoRepeats(s: seq<Entry>) {
    forall i, j :: 0 <= i < j < |s| ==> s[i] != s[j]
  }

  function Elements(s: seq<Entry>): set<Entry> {
    set e | e in s
  }

  lemma Enqueue(s: seq<Entry>, e: Entry)
    requires NoRepeats(s) && e !in s
    ensures NoRepeats(s + [e]) && Elements(s + [e]) == Elements(s) + {e}
  {
    assert forall x :: x in s + [e] <==> x in s || x == e;
  }

  lemma Expire(s: seq<Entry>)
    requires NoRepeats(s) && s != []
    ensures NoRepeats(s[1..]) && Elements(s[1..]) == Elements(s) - {s[0]}
  {
    assert s == [s[0]] + s[1..];
    assert forall x :: x in s <==> x == s[0] || x in s[1..];
  }

  class NonceCache {
    var values: set<Entry>
    var order: seq<Entry>
    /** Every entry accepted so far, oldest first. */
    ghost var accepted: seq<Entry>

    ghost predicate Valid()
      reads this
    {
      order == Last(accepted, CAPACITY) && values == Elements(order) && NoRepeats(order)
    }

    constructor ()
      ensures Valid() && accepted == []
    {
      values, order, accepted := {}, [], [];
    }

    /** Refused exactly when the entry is one of the last 4096 accepted, and remembered otherwise. */
    method Insert(entry: Entry) returns (ok: bool)
      requires Valid()
      modifies this
      ensures Valid() && accepted == Accept(old(accepted), entry)
      ensures ok <==> entry !in Last(old(accepted), CAPACITY)
    {
      if entry in values { return false; }
      values, accepted := values + {entry}, accepted + [entry];
      Enqueue(order, entry);
      order := order + [entry];
      ok := true;
      if |order| > CAPACITY {
        Expire(order);
        var expired := order[0];
        order := order[1..];
        values := values - {expired};
      }
    }
  }

  /** The accepted entries after one more attempt. */
  function Accept(accepted: seq<Entry>, entry: Entry): seq<Entry> {
    if entry in Last(accepted, CAPACITY) then accepted else accepted + [entry]
  }

  /** The accepted entries after a run of attempts. */
  function AcceptAll(accepted: seq<Entry>, attempts: seq<Entry>): seq<Entry>
    decreases |attempts|
  {
    if attempts == [] then accepted else AcceptAll(Accept(accepted, attempts[0]), attempts[1..])
  }

  /** Equal entries are more than `n` places apart. */
  ghost predicate FarApart(s: seq<Entry>, n: nat) {
    forall i, j :: 0 <= i < j < |s| && s[i] == s[j] ==> j - i > n
  }

  lemma AcceptKeepsFarApart(accepted: seq<Entry>, entry: Entry)
    requires FarApart(accepted, CAPACITY)
    ensures FarApart(Accept(accepted, entry), CAPACITY)
  {
    var window := Last(accepted, CAPACITY);
    forall i | |accepted| - |window| <= i < |accepted| ensures accepted[i] in window {
      assert window[i - (|accepted| - |window|)] == accepted[i];
    }
  }

  /** In every run an entry is accepted again only with at least 4096 others accepted in between. */
  lemma {:induction false} ReplaysAreFarApart(accepted: seq<Entry>, attempts: seq<Entry>)
    requires FarApart(accepted, CAPACITY)
    ensures FarApart(AcceptAll(accepted, attempts), CAPACITY)
    decreases |attempts|
  {
    if attempts != [] {
      AcceptKeepsFarApart(accepted, attempts[0]);
      ReplaysAreFarApart(Accept(accepted, attempts[0]), attempts[1..]);
    }
  }
}
