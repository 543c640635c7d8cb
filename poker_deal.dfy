/**
 * `dealHand` of poker.js: build the rank-major deck, run a 51-step
 * Fisher-Yates pass counting the steps that swap two different slots, rate
 * the pass and hand out the first cards. `Math.random` is replaced by
 * `picks`: step k (i = 51 - k in the source) uses picks[k] for j.
 */
module PokerDeal {
  import opened Cards
  import opened Decks
  import opened FisherYates

  /** The end slot `Array.prototype.slice(0, count)` stops at on an array of len elements. */
  function SliceEnd(len: nat, count: int): (e: nat)
    ensures e <= len
    ensures 0 <= count ==> e == if count < len then count else len
    ensures count < 0 ==> e + (-count) == len || (e == 0 && -count >= len)
  {
    if count < 0 then (if len + count < 0 then 0 else len + count)
    else if count < len then count
    else len
  }

  /** The rating poker.js gives a pass: more than 20 real swaps is "good". */
  function Rating(swaps: nat): (r: string)
    ensures r == "good" <==> swaps > 20
    ensures r == "good" || r == "poor"
  {
    if swaps > 20 then "good" else "poor"
  }

  /** Picks a 51-step pass over 52 slots may make: step k picks j in [0, 51 - k]. */
  predicate PokerPicks(picks: seq<nat>) {
    |picks| == 51 && LegalPicks(picks, 52)
  }

  /** The first loop nest: push rank + suit for every rank, then every suit. */
  method BuildDeck() returns (deck: seq<string>)
    ensures deck == RankMajorDeck()
  {
    deck := [];
    var n := 0;
    for r := 0 to 13
      invariant n == 4 * r && deck == RankMajorPushes(n)
    {
      for s := 0 to 4
        invariant n == 4 * r + s && deck == RankMajorPushes(n)
      {
        var card := [RANKS[r]] + [SUITS[s]];
        RankMajorSlotAt(n, r, s);
        assert card == Token(Card(r, s));
        assert RankMajorPushes(n + 1) == RankMajorPushes(n) + [card];
        deck := deck + [card];
        n := n + 1;
      }
    }
    RankMajorPushesPrefix(n);
  }

  /** The shuffle loop: i runs from 51 down to 1, swapping slots i and j. */
  method ShuffleCountingSwaps(deck: array<string>, picks: seq<nat>) returns (swaps: nat)
    requires deck.Length == 52 && PokerPicks(picks)
    modifies deck
    ensures deck[..] == Shuffled(old(deck[..]), picks)
    ensures swaps == SwapCount(picks, 52)
  {
    ghost var start := deck[..];
    ghost var done: seq<nat> := [];
    swaps := 0;
    var i := 51;
    while i > 0
      invariant 0 <= i <= 51
      invariant done == picks[..51 - i] && LegalPicks(done, 52)
      invariant deck[..] == Shuffled(start, done)
      invariant swaps == SwapCount(done, 52)
    {
      var j := picks[51 - i];
      LegalPrefix(picks, 52, 51 - i + 1);
      assert picks[..51 - i + 1] == done + [j];
      ShuffledSnoc(start, done, j);
      SwapCountSnoc(done, 52, j);
      if i != j {
        swaps := swaps + 1;
      }
      SwapSlots(deck, i, j);
      done := done + [j];
      i := i - 1;
    }
    assert done == picks;
  }

  /**
   * `dealHand(count)`: the first cards of the shuffled deck (as many as
   * `slice(0, count)` gives), the number of real swaps and the rating.
   */
  method DealHand(count: int, picks: seq<nat>) returns (hand: seq<string>, swaps: nat, rating: string)
    requires PokerPicks(picks)
    ensures hand == Shuffled(RankMajorDeck(), picks)[..SliceEnd(52, count)]
    ensures swaps == SwapCount(picks, 52) && swaps <= 51
    ensures rating == Rating(swaps)
  {
    var ordered := BuildDeck();
    var deck := new string[52](i requires 0 <= i < 52 => ordered[i]);
    assert deck[..] == ordered;
    swaps := ShuffleCountingSwaps(deck, picks);
    rating := if swaps > 20 then "good" else "poor";
    hand := deck[..SliceEnd(52, count)];
  }

  /** The dealt cards are distinct cards of the deck, and as many as asked for (up to 52). */
  lemma DealtCards(count: int, picks: seq<nat>)
    requires PokerPicks(picks)
    ensures var hand := Shuffled(RankMajorDeck(), picks)[..SliceEnd(52, count)];
      && Distinct(hand)
      && (forall t :: t in hand ==> t in RankMajorDeck())
      && (0 <= count <= 52 ==> |hand| == count)
  {
    var d := Shuffled(RankMajorDeck(), picks);
    RankMajorDistinct();
    ShuffledDistinct(RankMajorDeck(), picks);
    var hand := d[..SliceEnd(52, count)];
    forall t | t in hand ensures t in RankMajorDeck() {
      var p :| 0 <= p < |hand| && hand[p] == t;
      ShuffledElements(RankMajorDeck(), picks, p);
    }
  }

  /** The whole deck after the pass still holds each of the 52 cards exactly once. */
  lemma ShuffledDeckComplete(picks: seq<nat>, c: Card)
    requires PokerPicks(picks)
    ensures multiset(Shuffled(RankMajorDeck(), picks))[Token(c)] == 1
  {
    ShuffledPermutation(RankMajorDeck(), picks);
    RankMajorDistinct();
    RankMajorAt(c.rank, c.suit);
    DistinctOnce(RankMajorDeck(), 4 * c.rank + c.suit);
  }

  /** In a sequence without repeats, each element occurs once. */
  lemma {:induction false} DistinctOnce<T>(s: seq<T>, p: nat)
    requires Distinct(s) && p < |s|
    ensures multiset(s)[s[p]] == 1
  {
    var init := s[..|s| - 1];
    assert s == init + [s[|s| - 1]];
    assert Distinct(init);
    if p == |s| - 1 {
      assert s[p] !in init;
    } else {
      assert init[p] == s[p];
      DistinctOnce(init, p);
      assert s[|s| - 1] != s[p];
    }
  }

  /** A pass whose every step picks its own slot swaps nothing: the deck stays ordered and is rated "poor". */
  lemma IdentityPassIsPoor(picks: seq<nat>)
    requires PokerPicks(picks)
    requires forall k :: 0 <= k < 51 ==> picks[k] == 51 - k
    ensures Rating(SwapCount(picks, 52)) == "poor"
    ensures Shuffled(RankMajorDeck(), picks) == RankMajorDeck()
  {
    SwapCountZero(picks, 52);
    IdentityPass(RankMajorDeck(), picks);
  }

  /** A pass in which every step picks its own slot leaves the sequence as it was. */
  lemma {:induction false} IdentityPass<T>(s: seq<T>, picks: seq<nat>)
    requires LegalPicks(picks, |s|)
    requires forall k :: 0 <= k < |picks| ==> picks[k] == |s| - 1 - k
    ensures Shuffled(s, picks) == s
    decreases |picks|
  {
    if picks != [] {
      var k := |picks| - 1;
      LegalPrefix(picks, |s|, k);
      IdentityPass(s, picks[..k]);
    }
  }
}
