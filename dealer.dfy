/**
 * src/dealer.js: `createShuffledDeck` builds the suit-major deck, runs a
 * 52-step Fisher-Yates pass and counts the deck's runs
 * (`analyzeShuffleQuality`); `dealHand` checks the hand size and hands out
 * the first cards. `Math.random` is replaced by `picks`: the step with
 * `currentIndex` = 52 - k draws picks[k] as `randomIndex`.
 */
module Dealer {
  import opened Wrappers
  import opened Cards
  import opened Decks
  import opened FisherYates

  /** Picks a 52-step pass over 52 slots may make: step k picks a slot in [0, 51 - k]. */
  predicate DealerPicks(picks: seq<nat>) {
    |picks| == 52 && LegalPicks(picks, 52)
  }

  /** Every token has a rank character and a suit character to read. */
  predicate TwoCharTokens(d: seq<string>) {
    forall i :: 0 <= i < |d| ==> |d[i]| == 2
  }

  /** Neighbours in the same suit: `prevCard[1] === currCard[1]`. */
  predicate SuitRun(a: string, b: string)
    requires |a| == 2 && |b| == 2
  {
    a[1] == b[1]
  }

  /**
   * Neighbours a rank apart: `Math.abs(RANKS.indexOf(prev[0]) - RANKS.indexOf(curr[0])) === 1`,
   * with `indexOf` read through its table RankIndex (Cards.RankIndexIsIndexOf).
   */
  predicate RankRun(a: string, b: string)
    requires |a| == 2 && |b| == 2
  {
    var diff := RankIndex(a[0]) - RankIndex(b[0]);
    diff == 1 || diff == -1
  }

  /** The `runs` of a deck: one for each neighbouring pair in the same suit, one more for each pair a rank apart. */
  function Runs(d: seq<string>): (r: nat)
    requires TwoCharTokens(d)
    ensures |d| <= 1 ==> r == 0
    ensures 1 <= |d| ==> r <= 2 * (|d| - 1)
  {
    if |d| <= 1 then 0
    else
      var k := |d| - 1;
      assert TwoCharTokens(d[..k]);
      Runs(d[..k]) + (if SuitRun(d[k - 1], d[k]) then 1 else 0) + (if RankRun(d[k - 1], d[k]) then 1 else 0)
  }

  /** The entry `suitRuns[ch]`: neighbouring pairs in the same suit whose suit character is ch. */
  function SuitRunsOf(d: seq<string>, ch: char): (n: nat)
    requires TwoCharTokens(d)
    ensures |d| <= 1 ==> n == 0
  {
    if |d| <= 1 then 0
    else
      var k := |d| - 1;
      assert TwoCharTokens(d[..k]);
      SuitRunsOf(d[..k], ch) + (if SuitRun(d[k - 1], d[k]) && d[k][1] == ch then 1 else 0)
  }

  /** The part of `runs` from neighbouring pairs a rank apart. */
  function RankRuns(d: seq<string>): (n: nat)
    requires TwoCharTokens(d)
    ensures |d| <= 1 ==> n == 0
  {
    if |d| <= 1 then 0
    else
      var k := |d| - 1;
      assert TwoCharTokens(d[..k]);
      RankRuns(d[..k]) + (if RankRun(d[k - 1], d[k]) then 1 else 0)
  }

  /** Pair i - 1, i is the next one the counting loop looks at. */
  lemma RunsSnoc(d: seq<string>, i: nat)
    requires TwoCharTokens(d) && 1 <= i < |d|
    ensures TwoCharTokens(d[..i]) && TwoCharTokens(d[..i + 1])
    ensures Runs(d[..i + 1]) == Runs(d[..i]) + (if d[i - 1][1] == d[i][1] then 1 else 0)
                                 + (if RankRun(d[i - 1], d[i]) then 1 else 0)
  {
    var next := d[..i + 1];
    assert next[..i] == d[..i];
    assert next[i - 1] == d[i - 1] && next[i] == d[i];
    assert TwoCharTokens(next[..i]);
    assert Runs(next) == Runs(next[..i]) + (if SuitRun(next[i - 1], next[i]) then 1 else 0)
                         + (if RankRun(next[i - 1], next[i]) then 1 else 0);
  }

  /** The same pair bumps only the entry of its own suit, and only if both cards have it. */
  lemma SuitRunsSnoc(d: seq<string>, i: nat, ch: char)
    requires TwoCharTokens(d) && 1 <= i < |d|
    ensures TwoCharTokens(d[..i]) && TwoCharTokens(d[..i + 1])
    ensures SuitRunsOf(d[..i + 1], ch) == SuitRunsOf(d[..i], ch) + (if d[i - 1][1] == d[i][1] == ch then 1 else 0)
  {
    var next := d[..i + 1];
    assert next[..i] == d[..i];
    assert next[i - 1] == d[i - 1] && next[i] == d[i];
  }

  /** Every suit character is one of the keys C, D, H, S of `suitRuns`. */
  predicate KnownSuits(d: seq<string>) {
    forall i :: 0 <= i < |d| ==> |d[i]| == 2 && d[i][1] in SUITS
  }

  /**
   * When every suit character is a key of `suitRuns`, its four entries count
   * the same-suit pairs: with the rank-apart pairs they make up `runs`.
   */
  lemma {:induction false} RunsSplit(d: seq<string>)
    requires KnownSuits(d)
    ensures TwoCharTokens(d)
    ensures SuitRunsOf(d, 'C') + SuitRunsOf(d, 'D') + SuitRunsOf(d, 'H') + SuitRunsOf(d, 'S') + RankRuns(d) == Runs(d)
  {
    if |d| > 1 {
      var k := |d| - 1;
      assert KnownSuits(d[..k]);
      RunsSplit(d[..k]);
      RunsSnoc(d, k);
      SuitRunsSnoc(d, k, 'C');
      SuitRunsSnoc(d, k, 'D');
      SuitRunsSnoc(d, k, 'H');
      SuitRunsSnoc(d, k, 'S');
      assert d[..k + 1] == d;
      assert RankRuns(d) == RankRuns(d[..k]) + (if RankRun(d[k - 1], d[k]) then 1 else 0);
      var c := d[k][1];
      assert c == 'C' || c == 'D' || c == 'H' || c == 'S' by {
        assert c in SUITS;
        assert SUITS == ['C', 'D', 'H', 'S'];
      }
    }
  }

  /** One pass of the loop keeps each entry of `suitRuns` equal to its count. */
  lemma SuitRunsStep(m: map<char, nat>, m': map<char, nat>, d: seq<string>, i: nat)
    requires TwoCharTokens(d) && 1 <= i < |d|
    requires forall ch :: ch in m ==> m[ch] == SuitRunsOf(d[..i], ch)
    requires m' == if d[i - 1][1] == d[i][1] && d[i][1] in m then m[d[i][1] := m[d[i][1]] + 1] else m
    ensures m'.Keys == m.Keys
    ensures forall ch :: ch in m' ==> m'[ch] == SuitRunsOf(d[..i + 1], ch)
  {
    forall ch | ch in m' ensures m'[ch] == SuitRunsOf(d[..i + 1], ch) {
      SuitRunsSnoc(d, i, ch);
    }
  }

  /** On card tokens a suit run is two cards of one suit, a rank run two cards whose ranks differ by one. */
  lemma RunsOfCards(c: Card, e: Card)
    ensures SuitRun(Token(c), Token(e)) <==> c.suit == e.suit
    ensures RankRun(Token(c), Token(e)) <==> c.rank == e.rank + 1 || e.rank == c.rank + 1
  {
    RankIndexAt(c.rank);
    RankIndexAt(e.rank);
    AlphabetsDistinct();
    assert SUITS[c.suit] == SUITS[e.suit] ==> c.suit == e.suit;
  }

  /**
   * A token whose rank character is not in RANKS has index -1, which is one
   * away from the index 0 of "2": the pair counts as a rank run.
   */
  lemma UnknownRankBesideTwo(a: string, b: string)
    requires |a| == 2 && |b| == 2 && a[0] !in RANKS && b[0] == '2'
    ensures RankRun(a, b) && RankRun(b, a)
  {
    RankIndexIsIndexOf(a[0]);
    IndexOfFirst(RANKS, a[0]);
  }

  /** The tokens of the ordered deck, and so of every shuffle of it, have two characters and a known suit. */
  lemma ShuffledTwoChar(picks: seq<nat>)
    requires LegalPicks(picks, 52)
    ensures TwoCharTokens(Shuffled(SuitMajorDeck(), picks))
    ensures KnownSuits(Shuffled(SuitMajorDeck(), picks))
  {
    var d := Shuffled(SuitMajorDeck(), picks);
    forall i | 0 <= i < |d| ensures |d[i]| == 2 && d[i][1] in SUITS {
      ShuffledElements(SuitMajorDeck(), picks, i);
      var p :| 0 <= p < 52 && SuitMajorDeck()[p] == d[i];
      assert SuitMajorDeck()[p] == SuitMajorSlot(p);
    }
  }

  /** The first loop nest: push rank + suit for every suit, then every rank. */
  method BuildDeck() returns (deck: seq<string>)
    ensures deck == SuitMajorDeck()
  {
    deck := [];
    var n := 0;
    for s := 0 to 4
      invariant n == 13 * s && deck == SuitMajorPushes(n)
    {
      for r := 0 to 13
        invariant n == 13 * s + r && deck == SuitMajorPushes(n)
      {
        var card := [RANKS[r]] + [SUITS[s]];
        SuitMajorSlotAt(n, r, s);
        assert card == Token(Card(r, s));
        assert SuitMajorPushes(n + 1) == SuitMajorPushes(n) + [card];
        deck := deck + [card];
        n := n + 1;
      }
    }
    SuitMajorPushesPrefix(n);
  }

  /** The while loop: draw randomIndex below currentIndex, step currentIndex down, swap. */
  method Shuffle(deck: array<string>, picks: seq<nat>)
    requires deck.Length == 52 && DealerPicks(picks)
    modifies deck
    ensures deck[..] == Shuffled(old(deck[..]), picks)
  {
    ghost var start := deck[..];
    ghost var done: seq<nat> := [];
    var currentIndex := deck.Length;
    while currentIndex > 0
      invariant 0 <= currentIndex <= 52
      invariant done == picks[..52 - currentIndex] && LegalPicks(done, 52)
      invariant deck[..] == Shuffled(start, done)
    {
      var randomIndex := picks[52 - currentIndex];
      LegalPrefix(picks, 52, 52 - currentIndex + 1);
      assert picks[..52 - currentIndex + 1] == done + [randomIndex];
      ShuffledSnoc(start, done, randomIndex);
      currentIndex := currentIndex - 1;
      SwapSlots(deck, currentIndex, randomIndex);
      done := done + [randomIndex];
    }
    assert done == picks;
  }

  /**
   * The counting loop of `analyzeShuffleQuality`; the deck is only read.
   * `suitRuns` is computed by the source but not returned from it.
   */
  method AnalyzeShuffleQuality(deck: array<string>) returns (runs: nat, suitRuns: map<char, nat>)
    requires TwoCharTokens(deck[..])
    ensures runs == Runs(deck[..])
    ensures suitRuns.Keys == {'C', 'D', 'H', 'S'}
    ensures forall ch :: ch in suitRuns ==> suitRuns[ch] == SuitRunsOf(deck[..], ch)
  {
    runs := 0;
    suitRuns := map['C' := 0, 'D' := 0, 'H' := 0, 'S' := 0];
    if deck.Length == 0 {
      return;
    }
    ghost var d := deck[..];
    var i := 1;
    while i < deck.Length
      invariant 1 <= i <= deck.Length
      invariant TwoCharTokens(d[..i])
      invariant runs == Runs(d[..i])
      invariant suitRuns.Keys == {'C', 'D', 'H', 'S'}
      invariant forall ch :: ch in suitRuns ==> suitRuns[ch] == SuitRunsOf(d[..i], ch)
    {
      var prevCard := deck[i - 1];
      var currCard := deck[i];
      RunsSnoc(d, i);
      ghost var before := suitRuns;
      if prevCard[1] == currCard[1] {
        if currCard[1] in suitRuns {
          suitRuns := suitRuns[currCard[1] := suitRuns[currCard[1]] + 1];
        }
        runs := runs + 1;
      }
      SuitRunsStep(before, suitRuns, d, i);
      var prevRank := IndexOf(RANKS, prevCard[0]);
      var currRank := IndexOf(RANKS, currCard[0]);
      RankIndexIsIndexOf(prevCard[0]);
      RankIndexIsIndexOf(currCard[0]);
      var diff := prevRank - currRank;
      if (if diff < 0 then -diff else diff) == 1 {
        runs := runs + 1;
      }
      i := i + 1;
    }
    assert d[..i] == d;
  }

  /** `createShuffledDeck`: the shuffled suit-major deck and its runs. */
  method CreateShuffledDeck(picks: seq<nat>) returns (deck: array<string>, runs: nat)
    requires DealerPicks(picks)
    ensures fresh(deck)
    ensures deck[..] == Shuffled(SuitMajorDeck(), picks)
    ensures TwoCharTokens(deck[..]) && runs == Runs(deck[..])
  {
    var ordered := BuildDeck();
    deck := new string[52](i requires 0 <= i < 52 => ordered[i]);
    assert deck[..] == ordered;
    Shuffle(deck, picks);
    ShuffledTwoChar(picks);
    var suitRuns;
    runs, suitRuns := AnalyzeShuffleQuality(deck);
  }

  /** What `dealHand` returns: the hand and the runs of the deck it came from. */
  datatype Deal = Deal(hand: seq<string>, runs: nat)

  const HandSizeError: string := "Hand size must be between 1 and 52 cards"

  /** `dealHand(count)`: an error outside 1..52, otherwise the first count cards of a fresh shuffle. */
  method DealHand(count: int, picks: seq<nat>) returns (r: Result<Deal, string>)
    requires DealerPicks(picks)
    ensures r.Failure? <==> count < 1 || count > 52
    ensures r.Failure? ==> r.error == HandSizeError
    ensures r.Success? ==> r.value.hand == Shuffled(SuitMajorDeck(), picks)[..count]
    ensures r.Success? ==> TwoCharTokens(Shuffled(SuitMajorDeck(), picks))
    ensures r.Success? ==> r.value.runs == Runs(Shuffled(SuitMajorDeck(), picks))
  {
    if count < 1 || count > 52 {
      return Failure(HandSizeError);
    }
    var deck, runs := CreateShuffledDeck(picks);
    return Success(Deal(deck[..count], runs));
  }

  /** A dealt hand has exactly count cards, none repeated, each a card token of the deck. */
  lemma DealtCards(count: nat, picks: seq<nat>)
    requires DealerPicks(picks) && 1 <= count <= 52
    ensures |SuitMajorDeck()| == 52
    ensures var hand := Shuffled(SuitMajorDeck(), picks)[..count];
      && |hand| == count
      && Distinct(hand)
      && (forall i :: 0 <= i < count ==> hand[i] in SuitMajorDeck() && |hand[i]| == 2 && ParseToken(hand[i]).Some?)
  {
    var d := Shuffled(SuitMajorDeck(), picks);
    SuitMajorDistinct();
    ShuffledDistinct(SuitMajorDeck(), picks);
    forall i | 0 <= i < count ensures d[i] in SuitMajorDeck() && |d[i]| == 2 && ParseToken(d[i]).Some? {
      ShuffledElements(SuitMajorDeck(), picks, i);
      var p :| 0 <= p < 52 && SuitMajorDeck()[p] == d[i];
      DecksAreTokens(p);
      var c: Card :| SuitMajorDeck()[p] == Token(c);
      TokenRoundTrip(c);
    }
  }

  /** However the deck is shuffled, it has at most 2 * 51 runs. */
  lemma RunsBound(picks: seq<nat>)
    requires DealerPicks(picks)
    ensures TwoCharTokens(Shuffled(SuitMajorDeck(), picks))
    ensures Runs(Shuffled(SuitMajorDeck(), picks)) <= 102
    ensures var d := Shuffled(SuitMajorDeck(), picks);
      SuitRunsOf(d, 'C') + SuitRunsOf(d, 'D') + SuitRunsOf(d, 'H') + SuitRunsOf(d, 'S') <= Runs(d)
  {
    ShuffledTwoChar(picks);
    RunsSplit(Shuffled(SuitMajorDeck(), picks));
  }
}
