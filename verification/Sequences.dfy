// Lists of ids without repetition, and what that means for their contents.
module Sequences {

  predicate NoRepeats(s: seq<nat>) {
    forall i, j | 0 <= i < j < |s| :: s[i] != s[j]
  }

  lemma {:induction false} NoRepeatsCounts(s: seq<nat>)
    requires NoRepeats(s)
    ensures forall x :: multiset(s)[x] == if x in s then 1 else 0
  {
    if s != [] {
      NoRepeatsCounts(s[1..]);
      assert s == [s[0]] + s[1..];
    }
  }

  lemma TwiceCounts(s: seq<nat>, j: nat, k: nat)
    requires j < k < |s| && s[j] == s[k]
    ensures multiset(s)[s[j]] >= 2
  {
    assert s == s[..k] + [s[k]] + s[k + 1..];
    assert s[j] in s[..k];
    assert multiset(s) == multiset(s[..k]) + multiset{s[k]} + multiset(s[k + 1..]);
  }
}
