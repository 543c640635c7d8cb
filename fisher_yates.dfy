/**
 * The Fisher-Yates pass both dealers run, with `Math.random` replaced by the
 * caller's choices: step k swaps slot n-1-k with slot picks[k], where
 * picks[k] is at most n-1-k. poker.js runs 51 steps (i = 51 down to 1);
 * src/dealer.js runs 52 (its last step swaps slot 0 with itself).
 */
module FisherYates {
  import opened Cards

  /** The sequence with slots i and j exchanged. */
  function Swap<T>(s: seq<T>, i: nat, j: nat): seq<T>
    requires i < |s| && j < |s|
  {
    s[i := s[j]][j := s[i]]
  }

  /** Choices a Fisher-Yates pass over n slots may make: step k picks a slot in [0, n-1-k]. */
  predicate LegalPicks(picks: seq<nat>, n: nat) {
    |picks| <= n && forall k :: 0 <= k < |picks| ==> picks[k] <= n - 1 - k
  }

  lemma LegalPrefix(picks: seq<nat>, n: nat, m: nat)
    requires LegalPicks(picks, n) && m <= |picks|
    ensures LegalPicks(picks[..m], n)
  {
    assert forall k :: 0 <= k < m ==> picks[..m][k] == picks[k];
  }

  /** The sequence after the steps picks[0], picks[1], ... of the pass. */
  function Shuffled<T>(s: seq<T>, picks: seq<nat>): (r: seq<T>)
    requires LegalPicks(picks, |s|)
    ensures |r| == |s|
    decreases |picks|
  {
    if picks == [] then s
    else
      var k := |picks| - 1;
      LegalPrefix(picks, |s|, k);
      Swap(Shuffled(s, picks[..k]), |s| - 1 - k, picks[k])
  }

  /** The destructuring swap `[a[i], a[j]] = [a[j], a[i]]` of both loops. */
  method SwapSlots<T>(a: array<T>, i: nat, j: nat)
    requires i < a.Length && j < a.Length
    modifies a
    ensures a[..] == Swap(old(a[..]), i, j)
  {
    a[i], a[j] := a[j], a[i];
  }

  /** One more step of the pass. */
  lemma ShuffledSnoc<T>(s: seq<T>, picks: seq<nat>, j: nat)
    requires LegalPicks(picks + [j], |s|)
    ensures LegalPicks(picks, |s|) && |picks| < |s| && j <= |s| - 1 - |picks|
    ensures Shuffled(s, picks + [j]) == Swap(Shuffled(s, picks), |s| - 1 - |picks|, j)
  {
    LegalPrefix(picks + [j], |s|, |picks|);
    assert (picks + [j])[..|picks|] == picks;
    assert (picks + [j])[|picks|] == j;
  }

  lemma SwapMultiset<T>(s: seq<T>, i: nat, j: nat)
    requires i < |s| && j < |s|
    ensures multiset(Swap(s, i, j)) == multiset(s)
  {
  }

  /** The pass only rearranges: the result is a permutation of the input. */
  lemma {:induction false} ShuffledPermutation<T>(s: seq<T>, picks: seq<nat>)
    requires LegalPicks(picks, |s|)
    ensures multiset(Shuffled(s, picks)) == multiset(s)
    decreases |picks|
  {
    if picks != [] {
      var k := |picks| - 1;
      LegalPrefix(picks, |s|, k);
      var prev := Shuffled(s, picks[..k]);
      assert Shuffled(s, picks) == Swap(prev, |s| - 1 - k, picks[k]);
      ShuffledPermutation(s, picks[..k]);
      SwapMultiset(prev, |s| - 1 - k, picks[k]);
    }
  }

  /** Every element of the result was an element of the input. */
  lemma ShuffledElements<T>(s: seq<T>, picks: seq<nat>, p: nat)
    requires LegalPicks(picks, |s|) && p < |s|
    ensures Shuffled(s, picks)[p] in s
  {
    ShuffledPermutation(s, picks);
    assert Shuffled(s, picks)[p] in multiset(Shuffled(s, picks));
  }

  lemma SwapDistinct<T>(s: seq<T>, i: nat, j: nat)
    requires i < |s| && j < |s| && Distinct(s)
    ensures Distinct(Swap(s, i, j))
  {
    var r := Swap(s, i, j);
    forall a, b | 0 <= a < b < |r| ensures r[a] != r[b] {
      var a' := if a == i then j else if a == j then i else a;
      var b' := if b == i then j else if b == j then i else b;
      assert r[a] == s[a'] && r[b] == s[b'];
    }
  }

  /** A deck of distinct cards stays a deck of distinct cards. */
  lemma {:induction false} ShuffledDistinct<T>(s: seq<T>, picks: seq<nat>)
    requires LegalPicks(picks, |s|) && Distinct(s)
    ensures Distinct(Shuffled(s, picks))
    decreases |picks|
  {
    if picks != [] {
      var k := |picks| - 1;
      LegalPrefix(picks, |s|, k);
      ShuffledDistinct(s, picks[..k]);
      SwapDistinct(Shuffled(s, picks[..k]), |s| - 1 - k, picks[k]);
    }
  }

  /**
   * Once step k - 1 has run, the slots from n - k up are final: the later
   * steps only swap below them.
   */
  lemma {:induction false} ShuffledSettled<T>(s: seq<T>, picks: seq<nat>, k: nat, p: nat)
    requires LegalPicks(picks, |s|) && k <= |picks| && |s| - k <= p < |s|
    ensures LegalPicks(picks[..k], |s|)
    ensures Shuffled(s, picks)[p] == Shuffled(s, picks[..k])[p]
    decreases |picks|
  {
    LegalPrefix(picks, |s|, k);
    if k < |picks| {
      var m := |picks| - 1;
      LegalPrefix(picks, |s|, m);
      assert picks[..m][..k] == picks[..k];
      ShuffledSettled(s, picks[..m], k, p);
    } else {
      assert picks[..k] == picks;
    }
  }

  /** How many steps swap two different slots (the `quality.swaps` counter of poker.js). */
  function SwapCount(picks: seq<nat>, n: nat): (c: nat)
    ensures c <= |picks|
  {
    if picks == [] then 0
    else
      var k := |picks| - 1;
      SwapCount(picks[..k], n) + (if n - 1 - k != picks[k] then 1 else 0)
  }

  /** The counter is zero exactly when every step picks its own slot (the identity pass). */
  lemma {:induction false} SwapCountZero(picks: seq<nat>, n: nat)
    ensures SwapCount(picks, n) == 0 <==> forall k :: 0 <= k < |picks| ==> picks[k] == n - 1 - k
  {
    if picks != [] {
      var k := |picks| - 1;
      SwapCountZero(picks[..k], n);
      if SwapCount(picks, n) == 0 {
        forall i | 0 <= i < |picks| ensures picks[i] == n - 1 - i {
          if i < k {
            assert picks[..k][i] == picks[i];
          }
        }
      } else if forall i :: 0 <= i < |picks| ==> picks[i] == n - 1 - i {
        forall i | 0 <= i < k ensures picks[..k][i] == n - 1 - i {
          assert picks[..k][i] == picks[i];
        }
      }
    }
  }

  lemma SwapCountSnoc(picks: seq<nat>, n: nat, j: nat)
    ensures SwapCount(picks + [j], n) == SwapCount(picks, n) + (if n - 1 - |picks| != j then 1 else 0)
  {
    assert (picks + [j])[..|picks|] == picks;
  }
}
