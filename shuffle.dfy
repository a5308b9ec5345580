/**
 * `Utils.shuffle` of app.js: a Fisher-Yates pass over a copy of the array.
 * The random index `Math.floor(Math.random() * (i + 1))` drawn at step i is
 * supplied as `picks[i]`, which therefore lies in 0..i.
 */
module Shuffling {

  /** Swap indices a random source can produce for an array of length n. */
  predicate ValidPicks(picks: seq<nat>, n: nat) {
    |picks| == n && forall i :: 0 <= i < n ==> picks[i] <= i
  }

  /** Exchanging two entries keeps the same elements, and exchanging an entry with itself changes nothing. */
  lemma SwapKeepsMultiset<T>(s: seq<T>, i: nat, j: nat)
    requires i < |s| && j < |s|
    ensures multiset(s[i := s[j]][j := s[i]]) == multiset(s)
    ensures i == j ==> s[i := s[j]][j := s[i]] == s
  {
    var t := s[i := s[j]];
    assert multiset(t) == multiset(s) - multiset{s[i]} + multiset{s[j]};
  }

  method Shuffle<T>(arr: seq<T>, picks: seq<nat>) returns (r: seq<T>)
    requires ValidPicks(picks, |arr|)
    ensures |r| == |arr|
    ensures multiset(r) == multiset(arr)
    ensures (forall i :: 0 <= i < |picks| ==> picks[i] == i) ==> r == arr
  {
    var a := new T[|arr|](k requires 0 <= k < |arr| => arr[k]);
    assert a[..] == arr;
    var i := |arr| - 1;
    while i > 0
      invariant -1 <= i < |arr|
      invariant multiset(a[..]) == multiset(arr)
      invariant (forall k :: 0 <= k < |picks| ==> picks[k] == k) ==> a[..] == arr
    {
      var j := picks[i];
      ghost var before := a[..];
      a[i], a[j] := a[j], a[i];
      assert a[..] == before[i := before[j]][j := before[i]];
      SwapKeepsMultiset(before, i, j);
      i := i - 1;
    }
    r := a[..];
  }
}
