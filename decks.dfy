/**
 * The two ordered 52-card decks the dealers start from: poker.js pushes
 * rank by rank (each rank in the four suits), src/dealer.js suit by suit
 * (each suit through the thirteen ranks).
 */
module Decks {
  import opened Cards

  /** Slot i of poker.js's ordered deck. */
  function RankMajorSlot(i: nat): string
    requires i < 52
  {
    Token(Card(i / 4, i % 4))
  }

  /** Slot i of src/dealer.js's ordered deck. */
  function SuitMajorSlot(i: nat): string
    requires i < 52
  {
    Token(Card(i % 13, i / 13))
  }

  /** The first n pushes of poker.js's loop nest. */
  function RankMajorPushes(n: nat): (d: seq<string>)
    requires n <= 52
    ensures |d| == n
  {
    if n == 0 then [] else RankMajorPushes(n - 1) + [RankMajorSlot(n - 1)]
  }

  /** The first n pushes of src/dealer.js's loop nest. */
  function SuitMajorPushes(n: nat): (d: seq<string>)
    requires n <= 52
    ensures |d| == n
  {
    if n == 0 then [] else SuitMajorPushes(n - 1) + [SuitMajorSlot(n - 1)]
  }

  /** poker.js's ordered deck: slot 4 * r + s holds rank r of suit s. */
  function RankMajorDeck(): (d: seq<string>)
    ensures |d| == 52
  {
    seq(52, i requires 0 <= i < 52 => RankMajorSlot(i))
  }

  /** src/dealer.js's ordered deck: slot 13 * s + r holds rank r of suit s. */
  function SuitMajorDeck(): (d: seq<string>)
    ensures |d| == 52
  {
    seq(52, i requires 0 <= i < 52 => SuitMajorSlot(i))
  }

  lemma PrefixSnoc<T>(s: seq<T>, n: nat)
    requires 0 < n <= |s|
    ensures s[..n] == s[..n - 1] + [s[n - 1]]
  {
  }

  /** The first n pushes of poker.js's loop nest are the first n slots of its deck. */
  lemma {:induction false} RankMajorPushesPrefix(n: nat)
    requires n <= 52
    ensures RankMajorPushes(n) == RankMajorDeck()[..n]
  {
    if n > 0 {
      RankMajorPushesPrefix(n - 1);
      PrefixSnoc(RankMajorDeck(), n);
    }
  }

  /** The first n pushes of src/dealer.js's loop nest are the first n slots of its deck. */
  lemma {:induction false} SuitMajorPushesPrefix(n: nat)
    requires n <= 52
    ensures SuitMajorPushes(n) == SuitMajorDeck()[..n]
  {
    if n > 0 {
      SuitMajorPushesPrefix(n - 1);
      PrefixSnoc(SuitMajorDeck(), n);
    }
  }

  /** The push order of poker.js: rank r of suit s is pushed 4 * r + s-th. */
  lemma RankMajorSlotAt(i: nat, r: Rank, s: Suit)
    requires i == 4 * r + s
    ensures RankMajorSlot(i) == Token(Card(r, s))
  {
    assert i / 4 == r && i % 4 == s;
  }

  /** The push order of src/dealer.js: rank r of suit s is pushed 13 * s + r-th. */
  lemma SuitMajorSlotAt(i: nat, r: Rank, s: Suit)
    requires i == 13 * s + r
    ensures SuitMajorSlot(i) == Token(Card(r, s))
  {
    assert i / 13 == s && i % 13 == r;
  }

  lemma RankMajorAt(r: Rank, s: Suit)
    ensures RankMajorDeck()[4 * r + s] == Token(Card(r, s))
  {
    RankMajorSlotAt(4 * r + s, r, s);
  }

  lemma SuitMajorAt(r: Rank, s: Suit)
    ensures SuitMajorDeck()[13 * s + r] == Token(Card(r, s))
  {
    SuitMajorSlotAt(13 * s + r, r, s);
  }

  /** A deck built from distinct cards by a position-to-card map that is one-to-one. */
  lemma TokensDistinct(d: seq<string>, cards: seq<Card>)
    requires |d| == |cards| && Distinct(cards)
    requires forall i :: 0 <= i < |d| ==> d[i] == Token(cards[i])
    ensures Distinct(d)
  {
    forall i, j | 0 <= i < j < |d| ensures d[i] != d[j] {
      TokenInjective(cards[i], cards[j]);
    }
  }

  /** The 52 tokens of poker.js's ordered deck are pairwise different. */
  lemma RankMajorDistinct()
    ensures Distinct(RankMajorDeck())
  {
    var cards := seq(52, i requires 0 <= i < 52 => Card(i / 4, i % 4));
    forall i, j | 0 <= i < j < 52 ensures cards[i] != cards[j] {
      assert i == 4 * (i / 4) + i % 4 && j == 4 * (j / 4) + j % 4;
    }
    TokensDistinct(RankMajorDeck(), cards);
  }

  /** The 52 tokens of src/dealer.js's ordered deck are pairwise different. */
  lemma SuitMajorDistinct()
    ensures Distinct(SuitMajorDeck())
  {
    var cards := seq(52, i requires 0 <= i < 52 => Card(i % 13, i / 13));
    forall i, j | 0 <= i < j < 52 ensures cards[i] != cards[j] {
      assert i == 13 * (i / 13) + i % 13 && j == 13 * (j / 13) + j % 13;
    }
    TokensDistinct(SuitMajorDeck(), cards);
  }

  /** Every card is in both decks, so each is the full deck in some order. */
  lemma DecksComplete(c: Card)
    ensures Token(c) in RankMajorDeck() && Token(c) in SuitMajorDeck()
  {
    RankMajorAt(c.rank, c.suit);
    SuitMajorAt(c.rank, c.suit);
  }

  /** Every slot of either deck holds the token of a card. */
  lemma DecksAreTokens(p: nat)
    requires p < 52
    ensures exists c: Card :: RankMajorDeck()[p] == Token(c)
    ensures exists c: Card :: SuitMajorDeck()[p] == Token(c)
  {
    assert RankMajorDeck()[p] == Token(Card(p / 4, p % 4));
    assert SuitMajorDeck()[p] == Token(Card(p % 13, p / 13));
  }
}
