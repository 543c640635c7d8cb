/**
 * The card alphabets shared by poker.js, index.js and src/dealer.js, the
 * two-character card token ("AS" is the ace of spades) and its parsing.
 */
module Cards {
  import opened Wrappers

  /** Rank characters, lowest first; a rank is its index here (0 is "2", 12 is "A"). */
  const RANKS: string := "23456789TJQKA"
  /** Suit characters; a suit is its index here (0 is clubs, 3 is spades). */
  const SUITS: string := "CDHS"
  /** The name of each hand category 0..9. */
  const HANDS: seq<string> := [
    "Invalid Hand", "High Card", "One Pair", "Two Pair", "Three of a Kind",
    "Straight", "Flush", "Full House", "Four of a Kind", "Straight Flush"
  ]

  /**
   * The name shown for an evaluation result, `HANDS[handRank] || "Invalid Hand"`:
   * an index past the table reads `undefined` and falls back to "Invalid Hand".
   */
  function HandName(category: nat): (name: string)
    ensures name == "Invalid Hand" <==> category == 0 || category >= |HANDS|
    ensures 0 < category < |HANDS| ==> name == HANDS[category]
  {
    if category < |HANDS| then HANDS[category] else "Invalid Hand"
  }

  type Rank = r: nat | r < 13
  type Suit = s: nat | s < 4

  datatype Card = Card(rank: Rank, suit: Suit)

  predicate Distinct<T(==)>(s: seq<T>) {
    forall i, j :: 0 <= i < j < |s| ==> s[i] != s[j]
  }

  /** JavaScript's Array.prototype.indexOf on a string of characters: -1 when absent. */
  function IndexOf(s: string, c: char): (r: int)
    ensures -1 <= r < |s|
    ensures 0 <= r ==> s[r] == c
  {
    if s == [] then -1
    else if s[0] == c then 0
    else
      var k := IndexOf(s[1..], c);
      if k == -1 then -1 else k + 1
  }

  /** IndexOf is -1 exactly when c is absent, and otherwise finds its first occurrence. */
  lemma {:induction false} IndexOfFirst(s: string, c: char)
    ensures IndexOf(s, c) == -1 <==> c !in s
    ensures 0 <= IndexOf(s, c) ==> c !in s[..IndexOf(s, c)]
  {
    if s != [] && s[0] != c {
      IndexOfFirst(s[1..], c);
      assert s == [s[0]] + s[1..];
      if 0 <= IndexOf(s, c) {
        assert s[..IndexOf(s, c)] == [s[0]] + s[1..][..IndexOf(s[1..], c)];
      }
    }
  }

  lemma IndexOfDistinct(s: string, i: nat)
    requires Distinct(s) && i < |s|
    ensures IndexOf(s, s[i]) == i
  {
    IndexOfFirst(s, s[i]);
    assert s[i] in s;
  }

  lemma AlphabetsDistinct()
    ensures Distinct(RANKS) && Distinct(SUITS)
  {
  }

  /** The token of a card: its rank character followed by its suit character. */
  function Token(c: Card): (t: string)
    ensures |t| == 2
  {
    [RANKS[c.rank], SUITS[c.suit]]
  }

  /** The rank a character stands for: its position in RANKS, or -1. */
  function RankIndex(ch: char): (r: int)
    ensures -1 <= r < 13
    ensures 0 <= r ==> RANKS[r] == ch
  {
    match ch
    case '2' => 0 case '3' => 1 case '4' => 2 case '5' => 3 case '6' => 4
    case '7' => 5 case '8' => 6 case '9' => 7 case 'T' => 8 case 'J' => 9
    case 'Q' => 10 case 'K' => 11 case 'A' => 12
    case _ => -1
  }

  /** The suit a character stands for: its position in SUITS, or -1. */
  function SuitIndex(ch: char): (s: int)
    ensures -1 <= s < 4
    ensures 0 <= s ==> SUITS[s] == ch
  {
    match ch
    case 'C' => 0 case 'D' => 1 case 'H' => 2 case 'S' => 3
    case _ => -1
  }

  /** The table lookup agrees with `RANKS.indexOf(ch)`. */
  lemma RankIndexIsIndexOf(ch: char)
    ensures RankIndex(ch) == IndexOf(RANKS, ch)
  {
    AlphabetsDistinct();
    IndexOfFirst(RANKS, ch);
    if 0 <= RankIndex(ch) {
      IndexOfDistinct(RANKS, RankIndex(ch));
    } else if ch in RANKS {
      var i :| 0 <= i < |RANKS| && RANKS[i] == ch;
      RankIndexAt(i);
    }
  }

  /** Every character of RANKS is found at its own position. */
  lemma RankIndexAt(i: nat)
    requires i < |RANKS|
    ensures RankIndex(RANKS[i]) == i
  {
  }

  /** The table lookup agrees with `SUITS.indexOf(ch)`. */
  lemma SuitIndexIsIndexOf(ch: char)
    ensures SuitIndex(ch) == IndexOf(SUITS, ch)
  {
    AlphabetsDistinct();
    IndexOfFirst(SUITS, ch);
    if 0 <= SuitIndex(ch) {
      IndexOfDistinct(SUITS, SuitIndex(ch));
    } else if ch in SUITS {
      var i :| 0 <= i < |SUITS| && SUITS[i] == ch;
      SuitIndexAt(i);
    }
  }

  /** Every character of SUITS is found at its own position. */
  lemma SuitIndexAt(i: nat)
    requires i < |SUITS|
    ensures SuitIndex(SUITS[i]) == i
  {
  }

  /**
   * The per-card step of evaluatePokerHand: look both characters up; an
   * unknown character on either side gives no card.
   */
  function ParseToken(t: string): (c: Option<Card>)
    requires |t| == 2
    ensures c.Some? ==> Token(c.value) == t
  {
    var rank := RankIndex(t[0]);
    var suit := SuitIndex(t[1]);
    if rank == -1 || suit == -1 then None else Some(Card(rank, suit))
  }

  /** Parsing undoes Token. */
  lemma TokenRoundTrip(c: Card)
    ensures ParseToken(Token(c)) == Some(c)
  {
    RankIndexIsIndexOf(RANKS[c.rank]);
    SuitIndexIsIndexOf(SUITS[c.suit]);
    AlphabetsDistinct();
    IndexOfDistinct(RANKS, c.rank);
    IndexOfDistinct(SUITS, c.suit);
  }

  /** A token fails to parse exactly when one of its characters is not in its alphabet. */
  lemma ParseTokenNone(t: string)
    requires |t| == 2
    ensures ParseToken(t).None? <==> t[0] !in RANKS || t[1] !in SUITS
  {
    RankIndexIsIndexOf(t[0]);
    SuitIndexIsIndexOf(t[1]);
    IndexOfFirst(RANKS, t[0]);
    IndexOfFirst(SUITS, t[1]);
  }

  /** Token is a bijection between the 52 cards and the 52 parseable tokens. */
  lemma TokenInjective(c: Card, d: Card)
    ensures Token(c) == Token(d) <==> c == d
  {
    if Token(c) == Token(d) {
      TokenRoundTrip(c);
      TokenRoundTrip(d);
    }
  }
}
