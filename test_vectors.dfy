/**
 * The hands listed in __src/testCases.js, evaluated by the model of
 * evaluatePokerHand. Each hand gets its cards, a lemma fixing its category
 * and a lemma for the whole call. The A-2-3-4-5 hand, labelled a wheel
 * straight there, scores High Card: the code has no wheel.
 */
module TestVectors {
  import opened Wrappers
  import opened Cards
  import opened HandRanking
  import opened HandProperties

  /** The array of five card strings a test passes in. */
  function Hand(a: string, b: string, c: string, d: string, e: string): JsValue {
    JsArray([JsString(a), JsString(b), JsString(c), JsString(d), JsString(e)])
  }

  /** Five tokens that parse to the cards h score Category(h). */
  lemma EvaluateHand(a: string, b: string, c: string, d: string, e: string, h: seq<Card>)
    requires |a| == 2 && |b| == 2 && |c| == 2 && |d| == 2 && |e| == 2 && |h| == 5
    requires ParseToken(a) == Some(h[0]) && ParseToken(b) == Some(h[1]) && ParseToken(c) == Some(h[2])
    requires ParseToken(d) == Some(h[3]) && ParseToken(e) == Some(h[4])
    ensures Evaluate(Hand(a, b, c, d, e)) == Success(Category(h))
  {
    var items := [JsString(a), JsString(b), JsString(c), JsString(d), JsString(e)];
    assert AllCardStrings(items);
    assert forall i :: 0 <= i < |items| ==> ParseToken(items[i].chars) == Some(h[i]);
    ParseAllPointwise(items, h);
    assert ParseAll(items) == Some(h);
  }

  /** The rank tally of five cards, rank by rank. */
  lemma CountsOf(h: seq<Card>)
    requires |h| == 5
    ensures forall r: Rank :: (RankCount(h, r) ==
      (if h[0].rank == r then 1 else 0) + (if h[1].rank == r then 1 else 0) + (if h[2].rank == r then 1 else 0)
      + (if h[3].rank == r then 1 else 0) + (if h[4].rank == r then 1 else 0))
  {
    var h0: seq<Card> := [];
    RankCountSnoc(h0, h[0]);
    var h1 := h0 + [h[0]];
    RankCountSnoc(h1, h[1]);
    var h2 := h1 + [h[1]];
    RankCountSnoc(h2, h[2]);
    var h3 := h2 + [h[2]];
    RankCountSnoc(h3, h[3]);
    var h4 := h3 + [h[3]];
    RankCountSnoc(h4, h[4]);
    assert h == h4 + [h[4]];
  }

  /** AS KS QS JS TS (__src/testCases.js:2). */
  function RoyalFlushCards(): seq<Card> {
    [Card(12, 3), Card(11, 3), Card(10, 3), Card(9, 3), Card(8, 3)]
  }

  /** AS KS QS JS TS: Royal Flush, scored Straight Flush. */
  lemma RoyalFlushCategory()
    ensures Category(RoyalFlushCards()) == 9
  {
    var h := RoyalFlushCards();
    CountsOf(h);
    assert IsFlush(h);
    assert IsRankWindow(h, 8);
    RanksWithCountSet(h, 2, 13, {});
    RanksWithCountSet(h, 3, 13, {});
    RanksWithCountSet(h, 4, 13, {});
    assert Category(h) == Ladder(true, true, 0, 0, 0);
  }

  /** evaluatePokerHand(["AS", "KS", "QS", "JS", "TS"]) is 9. */
  lemma RoyalFlush()
    ensures Evaluate(Hand("AS", "KS", "QS", "JS", "TS")) == Success(9)
  {
    EvaluateHand("AS", "KS", "QS", "JS", "TS", RoyalFlushCards());
    RoyalFlushCategory();
  }

  /** The royal flush is shown as "Straight Flush". */
  lemma RoyalFlushName()
    ensures Evaluate(Hand("AS", "KS", "QS", "JS", "TS")).Success?
    ensures HandName(Evaluate(Hand("AS", "KS", "QS", "JS", "TS")).value) == "Straight Flush"
  {
    RoyalFlush();
  }

  /** KS QS JS TS 9S (__src/testCases.js:3). */
  function StraightFlushCards(): seq<Card> {
    [Card(11, 3), Card(10, 3), Card(9, 3), Card(8, 3), Card(7, 3)]
  }

  /** KS QS JS TS 9S: Straight Flush. */
  lemma StraightFlushCategory()
    ensures Category(StraightFlushCards()) == 9
  {
    var h := StraightFlushCards();
    CountsOf(h);
    assert IsFlush(h);
    assert IsRankWindow(h, 7);
    RanksWithCountSet(h, 2, 13, {});
    RanksWithCountSet(h, 3, 13, {});
    RanksWithCountSet(h, 4, 13, {});
    assert Category(h) == Ladder(true, true, 0, 0, 0);
  }

  /** evaluatePokerHand(["KS", "QS", "JS", "TS", "9S"]) is 9. */
  lemma StraightFlush()
    ensures Evaluate(Hand("KS", "QS", "JS", "TS", "9S")) == Success(9)
  {
    EvaluateHand("KS", "QS", "JS", "TS", "9S", StraightFlushCards());
    StraightFlushCategory();
  }

  /** 7H 7D 7S 7C JD (__src/testCases.js:4). */
  function FourOfAKindCards(): seq<Card> {
    [Card(5, 2), Card(5, 1), Card(5, 3), Card(5, 0), Card(9, 1)]
  }

  /** 7H 7D 7S 7C JD: Four of a Kind. */
  lemma FourOfAKindCategory()
    ensures Category(FourOfAKindCards()) == 8
  {
    var h := FourOfAKindCards();
    CountsOf(h);
    assert h[0] in h && h[1] in h;
    RanksWithCountSet(h, 2, 13, {});
    RanksWithCountSet(h, 3, 13, {});
    RanksWithCountSet(h, 4, 13, {5});
    assert Category(h) == Ladder(false, IsStraight(h), 0, 0, 1);
  }

  /** evaluatePokerHand(["7H", "7D", "7S", "7C", "JD"]) is 8. */
  lemma FourOfAKind()
    ensures Evaluate(Hand("7H", "7D", "7S", "7C", "JD")) == Success(8)
  {
    EvaluateHand("7H", "7D", "7S", "7C", "JD", FourOfAKindCards());
    FourOfAKindCategory();
  }

  /** TS TC TH JD JC (__src/testCases.js:5). */
  function FullHouseCards(): seq<Card> {
    [Card(8, 3), Card(8, 0), Card(8, 2), Card(9, 1), Card(9, 0)]
  }

  /** TS TC TH JD JC: Full House. */
  lemma FullHouseCategory()
    ensures Category(FullHouseCards()) == 7
  {
    var h := FullHouseCards();
    CountsOf(h);
    assert h[0] in h && h[1] in h;
    RanksWithCountSet(h, 2, 13, {9});
    RanksWithCountSet(h, 3, 13, {8});
    RanksWithCountSet(h, 4, 13, {});
    assert Category(h) == Ladder(false, IsStraight(h), 1, 1, 0);
  }

  /** evaluatePokerHand(["TS", "TC", "TH", "JD", "JC"]) is 7. */
  lemma FullHouse()
    ensures Evaluate(Hand("TS", "TC", "TH", "JD", "JC")) == Success(7)
  {
    EvaluateHand("TS", "TC", "TH", "JD", "JC", FullHouseCards());
    FullHouseCategory();
  }

  /** 2H 3H 4H 5H 7H (__src/testCases.js:6). */
  function FlushCards(): seq<Card> {
    [Card(0, 2), Card(1, 2), Card(2, 2), Card(3, 2), Card(5, 2)]
  }

  /** 2H 3H 4H 5H 7H: Flush. */
  lemma FlushCategory()
    ensures Category(FlushCards()) == 6
  {
    var h := FlushCards();
    CountsOf(h);
    assert IsFlush(h);
    SpreadNotStraight(h, 0, 5);
    RanksWithCountSet(h, 2, 13, {});
    RanksWithCountSet(h, 3, 13, {});
    RanksWithCountSet(h, 4, 13, {});
    assert Category(h) == Ladder(true, false, 0, 0, 0);
  }

  /** evaluatePokerHand(["2H", "3H", "4H", "5H", "7H"]) is 6. */
  lemma Flush()
    ensures Evaluate(Hand("2H", "3H", "4H", "5H", "7H")) == Success(6)
  {
    EvaluateHand("2H", "3H", "4H", "5H", "7H", FlushCards());
    FlushCategory();
  }

  /** 9C TC JD QH KS (__src/testCases.js:7). */
  function StraightCards(): seq<Card> {
    [Card(7, 0), Card(8, 0), Card(9, 1), Card(10, 2), Card(11, 3)]
  }

  /** 9C TC JD QH KS: Straight. */
  lemma StraightCategory()
    ensures Category(StraightCards()) == 5
  {
    var h := StraightCards();
    CountsOf(h);
    assert h[0] in h && h[2] in h;
    assert IsRankWindow(h, 7);
    RanksWithCountSet(h, 2, 13, {});
    RanksWithCountSet(h, 3, 13, {});
    RanksWithCountSet(h, 4, 13, {});
    assert Category(h) == Ladder(false, true, 0, 0, 0);
  }

  /** evaluatePokerHand(["9C", "TC", "JD", "QH", "KS"]) is 5. */
  lemma Straight()
    ensures Evaluate(Hand("9C", "TC", "JD", "QH", "KS")) == Success(5)
  {
    EvaluateHand("9C", "TC", "JD", "QH", "KS", StraightCards());
    StraightCategory();
  }

  /** AC 2D 3H 4S 5C (__src/testCases.js:8). */
  function WheelCards(): seq<Card> {
    [Card(12, 0), Card(0, 1), Card(1, 2), Card(2, 3), Card(3, 0)]
  }

  /** AC 2D 3H 4S 5C: A-2-3-4-5, scored High Card: the code has no wheel. */
  lemma WheelCategory()
    ensures Category(WheelCards()) == 1
  {
    var h := WheelCards();
    CountsOf(h);
    assert h[0] in h && h[1] in h;
    SpreadNotStraight(h, 0, 12);
    RanksWithCountSet(h, 2, 13, {});
    RanksWithCountSet(h, 3, 13, {});
    RanksWithCountSet(h, 4, 13, {});
    assert Category(h) == Ladder(false, false, 0, 0, 0);
  }

  /** evaluatePokerHand(["AC", "2D", "3H", "4S", "5C"]) is 1. */
  lemma Wheel()
    ensures Evaluate(Hand("AC", "2D", "3H", "4S", "5C")) == Success(1)
  {
    EvaluateHand("AC", "2D", "3H", "4S", "5C", WheelCards());
    WheelCategory();
  }

  /** The A-2-3-4-5 hand is shown as "High Card", not as a straight. */
  lemma WheelName()
    ensures Evaluate(Hand("AC", "2D", "3H", "4S", "5C")).Success?
    ensures HandName(Evaluate(Hand("AC", "2D", "3H", "4S", "5C")).value) == "High Card"
  {
    Wheel();
  }

  /** QC QH QS 9H 2D (__src/testCases.js:9). */
  function ThreeOfAKindCards(): seq<Card> {
    [Card(10, 0), Card(10, 2), Card(10, 3), Card(7, 2), Card(0, 1)]
  }

  /** QC QH QS 9H 2D: Three of a Kind. */
  lemma ThreeOfAKindCategory()
    ensures Category(ThreeOfAKindCards()) == 4
  {
    var h := ThreeOfAKindCards();
    CountsOf(h);
    assert h[0] in h && h[1] in h;
    SpreadNotStraight(h, 0, 10);
    RanksWithCountSet(h, 2, 13, {});
    RanksWithCountSet(h, 3, 13, {10});
    RanksWithCountSet(h, 4, 13, {});
    assert Category(h) == Ladder(false, false, 0, 1, 0);
  }

  /** evaluatePokerHand(["QC", "QH", "QS", "9H", "2D"]) is 4. */
  lemma ThreeOfAKind()
    ensures Evaluate(Hand("QC", "QH", "QS", "9H", "2D")) == Success(4)
  {
    EvaluateHand("QC", "QH", "QS", "9H", "2D", ThreeOfAKindCards());
    ThreeOfAKindCategory();
  }

  /** KH KD JC JS 7C (__src/testCases.js:10). */
  function TwoPairCards(): seq<Card> {
    [Card(11, 2), Card(11, 1), Card(9, 0), Card(9, 3), Card(5, 0)]
  }

  /** KH KD JC JS 7C: Two Pair. */
  lemma TwoPairCategory()
    ensures Category(TwoPairCards()) == 3
  {
    var h := TwoPairCards();
    CountsOf(h);
    assert h[0] in h && h[2] in h;
    SpreadNotStraight(h, 5, 11);
    RanksWithCountSet(h, 2, 13, {9, 11});
    RanksWithCountSet(h, 3, 13, {});
    RanksWithCountSet(h, 4, 13, {});
    assert Category(h) == Ladder(false, false, 2, 0, 0);
  }

  /** evaluatePokerHand(["KH", "KD", "JC", "JS", "7C"]) is 3. */
  lemma TwoPair()
    ensures Evaluate(Hand("KH", "KD", "JC", "JS", "7C")) == Success(3)
  {
    EvaluateHand("KH", "KD", "JC", "JS", "7C", TwoPairCards());
    TwoPairCategory();
  }

  /** AH AD 8C 4S 2C (__src/testCases.js:11). */
  function OnePairCards(): seq<Card> {
    [Card(12, 2), Card(12, 1), Card(6, 0), Card(2, 3), Card(0, 0)]
  }

  /** AH AD 8C 4S 2C: One Pair. */
  lemma OnePairCategory()
    ensures Category(OnePairCards()) == 2
  {
    var h := OnePairCards();
    CountsOf(h);
    assert h[0] in h && h[1] in h;
    SpreadNotStraight(h, 0, 12);
    RanksWithCountSet(h, 2, 13, {12});
    RanksWithCountSet(h, 3, 13, {});
    RanksWithCountSet(h, 4, 13, {});
    assert Category(h) == Ladder(false, false, 1, 0, 0);
  }

  /** evaluatePokerHand(["AH", "AD", "8C", "4S", "2C"]) is 2. */
  lemma OnePair()
    ensures Evaluate(Hand("AH", "AD", "8C", "4S", "2C")) == Success(2)
  {
    EvaluateHand("AH", "AD", "8C", "4S", "2C", OnePairCards());
    OnePairCategory();
  }

  /** KH JD 8C 7S 3H (__src/testCases.js:12). */
  function HighCardKingCards(): seq<Card> {
    [Card(11, 2), Card(9, 1), Card(6, 0), Card(5, 3), Card(1, 2)]
  }

  /** KH JD 8C 7S 3H: High Card, king high. */
  lemma HighCardKingCategory()
    ensures Category(HighCardKingCards()) == 1
  {
    var h := HighCardKingCards();
    CountsOf(h);
    assert h[0] in h && h[1] in h;
    SpreadNotStraight(h, 1, 11);
    RanksWithCountSet(h, 2, 13, {});
    RanksWithCountSet(h, 3, 13, {});
    RanksWithCountSet(h, 4, 13, {});
    assert Category(h) == Ladder(false, false, 0, 0, 0);
  }

  /** evaluatePokerHand(["KH", "JD", "8C", "7S", "3H"]) is 1. */
  lemma HighCardKing()
    ensures Evaluate(Hand("KH", "JD", "8C", "7S", "3H")) == Success(1)
  {
    EvaluateHand("KH", "JD", "8C", "7S", "3H", HighCardKingCards());
    HighCardKingCategory();
  }

  /** 9D 4D 8C 7S 3H (__src/testCases.js:13). */
  function HighCardNineCards(): seq<Card> {
    [Card(7, 1), Card(2, 1), Card(6, 0), Card(5, 3), Card(1, 2)]
  }

  /** 9D 4D 8C 7S 3H: High Card, nine high. */
  lemma HighCardNineCategory()
    ensures Category(HighCardNineCards()) == 1
  {
    var h := HighCardNineCards();
    CountsOf(h);
    assert h[0] in h && h[2] in h;
    SpreadNotStraight(h, 1, 7);
    RanksWithCountSet(h, 2, 13, {});
    RanksWithCountSet(h, 3, 13, {});
    RanksWithCountSet(h, 4, 13, {});
    assert Category(h) == Ladder(false, false, 0, 0, 0);
  }

  /** evaluatePokerHand(["9D", "4D", "8C", "7S", "3H"]) is 1. */
  lemma HighCardNine()
    ensures Evaluate(Hand("9D", "4D", "8C", "7S", "3H")) == Success(1)
  {
    EvaluateHand("9D", "4D", "8C", "7S", "3H", HighCardNineCards());
    HighCardNineCategory();
  }

  /** 2C 4D 6H 8S TD (__src/testCases.js:14). */
  function MixedNoPairsCards(): seq<Card> {
    [Card(0, 0), Card(2, 1), Card(4, 2), Card(6, 3), Card(8, 1)]
  }

  /** 2C 4D 6H 8S TD: no pair, no straight, mixed suits. */
  lemma MixedNoPairsCategory()
    ensures Category(MixedNoPairsCards()) == 1
  {
    var h := MixedNoPairsCards();
    CountsOf(h);
    assert h[0] in h && h[1] in h;
    SpreadNotStraight(h, 0, 8);
    RanksWithCountSet(h, 2, 13, {});
    RanksWithCountSet(h, 3, 13, {});
    RanksWithCountSet(h, 4, 13, {});
    assert Category(h) == Ladder(false, false, 0, 0, 0);
  }

  /** evaluatePokerHand(["2C", "4D", "6H", "8S", "TD"]) is 1. */
  lemma MixedNoPairs()
    ensures Evaluate(Hand("2C", "4D", "6H", "8S", "TD")) == Success(1)
  {
    EvaluateHand("2C", "4D", "6H", "8S", "TD", MixedNoPairsCards());
    MixedNoPairsCategory();
  }

  /** 2C 4C 6C 8C TC (__src/testCases.js:15). */
  function FlushNoPairsCards(): seq<Card> {
    [Card(0, 0), Card(2, 0), Card(4, 0), Card(6, 0), Card(8, 0)]
  }

  /** 2C 4C 6C 8C TC: Flush with no pair. */
  lemma FlushNoPairsCategory()
    ensures Category(FlushNoPairsCards()) == 6
  {
    var h := FlushNoPairsCards();
    CountsOf(h);
    assert IsFlush(h);
    SpreadNotStraight(h, 0, 8);
    RanksWithCountSet(h, 2, 13, {});
    RanksWithCountSet(h, 3, 13, {});
    RanksWithCountSet(h, 4, 13, {});
    assert Category(h) == Ladder(true, false, 0, 0, 0);
  }

  /** evaluatePokerHand(["2C", "4C", "6C", "8C", "TC"]) is 6. */
  lemma FlushNoPairs()
    ensures Evaluate(Hand("2C", "4C", "6C", "8C", "TC")) == Success(6)
  {
    EvaluateHand("2C", "4C", "6C", "8C", "TC", FlushNoPairsCards());
    FlushNoPairsCategory();
  }

  /** 2C 3C 4C 5C 7C (__src/testCases.js:16). */
  function FlushNotStraightCards(): seq<Card> {
    [Card(0, 0), Card(1, 0), Card(2, 0), Card(3, 0), Card(5, 0)]
  }

  /** 2C 3C 4C 5C 7C: Flush that is not a straight. */
  lemma FlushNotStraightCategory()
    ensures Category(FlushNotStraightCards()) == 6
  {
    var h := FlushNotStraightCards();
    CountsOf(h);
    assert IsFlush(h);
    SpreadNotStraight(h, 0, 5);
    RanksWithCountSet(h, 2, 13, {});
    RanksWithCountSet(h, 3, 13, {});
    RanksWithCountSet(h, 4, 13, {});
    assert Category(h) == Ladder(true, false, 0, 0, 0);
  }

  /** evaluatePokerHand(["2C", "3C", "4C", "5C", "7C"]) is 6. */
  lemma FlushNotStraight()
    ensures Evaluate(Hand("2C", "3C", "4C", "5C", "7C")) == Success(6)
  {
    EvaluateHand("2C", "3C", "4C", "5C", "7C", FlushNotStraightCards());
    FlushNotStraightCategory();
  }

  /** Five aces of spades: one rank, so the power-of-two branch makes it a straight, and a flush. */
  function FiveAcesCards(): seq<Card> {
    [Card(12, 3), Card(12, 3), Card(12, 3), Card(12, 3), Card(12, 3)]
  }

  /** AS AS AS AS AS: the repeated card is not rejected, and the hand scores Straight Flush. */
  lemma FiveAces()
    ensures Evaluate(Hand("AS", "AS", "AS", "AS", "AS")) == Success(9)
  {
    var h := FiveAcesCards();
    EvaluateHand("AS", "AS", "AS", "AS", "AS", h);
    assert IsFlush(h) && IsSingleRank(h);
    assert Category(h) == Ladder(true, true, RanksWithCount(h, 2, 13), RanksWithCount(h, 3, 13), RanksWithCount(h, 4, 13));
  }

  /** XX KS QS JS TS (__src/testCases.js:23): an unknown character scores 0. */
  lemma InvalidCard()
    ensures Evaluate(Hand("XX", "KS", "QS", "JS", "TS")) == Success(0)
  {
    var v := Hand("XX", "KS", "QS", "JS", "TS");
    assert AllCardStrings(v.items);
    ZeroIffUnknownCharacter(v);
    assert v.items[0].chars[0] !in RANKS;
  }

  /** A hand with an unknown character is shown as "Invalid Hand". */
  lemma InvalidCardName()
    ensures Evaluate(Hand("XX", "KS", "QS", "JS", "TS")).Success?
    ensures HandName(Evaluate(Hand("XX", "KS", "QS", "JS", "TS")).value) == "Invalid Hand"
  {
    InvalidCard();
  }

  /** The error cases of __src/testCases.js:20-25: each throws the matching error. */
  lemma ErrorTests()
    ensures Evaluate(JsArray([JsString("AS"), JsString("KS"), JsString("QS"), JsString("JS")])) == Failure(WrongCardCount)
    ensures Evaluate(JsArray([JsString("AS"), JsString("KS"), JsString("QS"), JsString("JS"), JsString("TS"), JsString("2H")]))
      == Failure(WrongCardCount)
    ensures Evaluate(JsArray([JsString("A"), JsString("KS"), JsString("QS"), JsString("JS"), JsString("TS")])) == Failure(MalformedCard)
    ensures Evaluate(JsString("AS KS QS JS TS")) == Failure(NotAnArray)
    ensures Evaluate(JsArray([JsOther, JsOther, JsOther, JsOther, JsOther])) == Failure(MalformedCard)
  {
    var malformed := [JsString("A"), JsString("KS"), JsString("QS"), JsString("JS"), JsString("TS")];
    assert !IsCardString(malformed[0]);
    var numbers := [JsOther, JsOther, JsOther, JsOther, JsOther];
    assert !IsCardString(numbers[0]);
  }
}
