/** Counting the callers that hold something. */
module Counting {

  /** How many of the callers are `k`, as `has` tells. */
  function Count<K, P>(has: (K, P) -> bool, k: K, s: seq<P>): nat {
    if s == [] then 0 else (if has(k, s[0]) then 1 else 0) + Count(has, k, s[1..])
  }

  lemma {:induction false} CountUpdate<K, P>(has: (K, P) -> bool, k: K, s: seq<P>, i: nat, p: P)
    requires i < |s|
    ensures Count(has, k, s[i := p])
      == Count(has, k, s) + (if has(k, p) then 1 else 0) - (if has(k, s[i]) then 1 else 0)
    decreases i
  {
    if i > 0 {
      assert s[i := p][1..] == s[1..][i - 1 := p];
      CountUpdate(has, k, s[1..], i - 1, p);
    } else {
      assert s[0 := p][1..] == s[1..];
    }
  }

  lemma {:induction false} CountAtMost<K, P>(has: (K, P) -> bool, k: K, l: K, s: seq<P>)
    requires forall i :: 0 <= i < |s| && has(k, s[i]) ==> has(l, s[i])
    ensures Count(has, k, s) <= Count(has, l, s)
    decreases |s|
  {
    if s != [] { CountAtMost(has, k, l, s[1..]); }
  }

  lemma {:induction false} CountNone<K, P>(has: (K, P) -> bool, k: K, s: seq<P>)
    requires forall i :: 0 <= i < |s| ==> !has(k, s[i])
    ensures Count(has, k, s) == 0
    decreases |s|
  {
    if s != [] { CountNone(has, k, s[1..]); }
  }
}
