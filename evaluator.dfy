/**
 * evaluatePokerHand (poker.js:53-122; index.js:29-98 is the same code): the
 * imperative bit-mask evaluator, proved to compute HandRanking.Evaluate.
 */
module Evaluator {
  import opened Wrappers
  import opened Cards
  import opened Bits
  import opened HandRanking

  /** The straight test on the rank mask, as the code writes it. */
  predicate IsStraightMask(m: nat) {
    (m != 0 && And(m, m - 1) == 0)
    || m == 0x1f || m == 0x3e || m == 0x7c || m == 0xf8 || m == 0x1f0
    || m == 0x3e0 || m == 0x7c0 || m == 0xf80 || m == 0x1f00
  }

  /** The five-bit window of ranks k..k+4. */
  function WindowMask(k: nat): nat {
    Shl(0x1f, k)
  }

  /** The nine constants of the straight test are the windows starting at ranks 0..8. */
  lemma WindowConstants(m: nat)
    ensures (m == 0x1f || m == 0x3e || m == 0x7c || m == 0xf8 || m == 0x1f0
             || m == 0x3e0 || m == 0x7c0 || m == 0xf80 || m == 0x1f00)
            <==> exists k :: 0 <= k <= 8 && m == WindowMask(k)
  {
    assert WindowMask(0) == 0x1f && WindowMask(1) == 0x3e && WindowMask(2) == 0x7c;
    assert WindowMask(3) == 0xf8 && WindowMask(4) == 0x1f0 && WindowMask(5) == 0x3e0;
    assert WindowMask(6) == 0x7c0 && WindowMask(7) == 0xf80 && WindowMask(8) == 0x1f00;
    if k :| 0 <= k <= 8 && m == WindowMask(k) {
      assert k == 0 || k == 1 || k == 2 || k == 3 || k == 4 || k == 5 || k == 6 || k == 7 || k == 8;
    }
  }

  lemma WindowMaskBits(k: nat, r: Rank)
    requires k <= 8
    ensures WindowMask(k) < Pow2(13)
    ensures Bit(WindowMask(k), r) <==> k <= r < k + 5
  {
    WindowBits(k, r);
    if k < 8 {
      Pow2Monotone(k, 8);
    }
    assert Pow2(8) == 256 && Pow2(13) == 8192;
  }

  /** A rank mask equals the window at k iff the ranks present are exactly k..k+4. */
  lemma MaskIsWindow(m: nat, h: seq<Card>, k: nat)
    requires m < Pow2(13) && k <= 8
    requires forall r: Rank :: Bit(m, r) <==> HasRank(h, r)
    ensures m == WindowMask(k) <==> IsRankWindow(h, k)
  {
    if m == WindowMask(k) {
      forall r: Rank ensures HasRank(h, r) <==> k <= r < k + 5 {
        WindowMaskBits(k, r);
      }
    }
    if IsRankWindow(h, k) {
      forall i | 0 <= i < 13 ensures Bit(m, i) <==> Bit(WindowMask(k), i) {
        WindowMaskBits(k, i);
      }
      WindowMaskBits(k, 0);
      Extensional(m, WindowMask(k), 13);
    }
  }

  /** A non-empty hand's rank mask is a power of two iff every card has the same rank. */
  lemma MaskIsPowerOfTwo(m: nat, h: seq<Card>)
    requires |h| > 0 && m < Pow2(13)
    requires forall r: Rank :: Bit(m, r) <==> HasRank(h, r)
    ensures (m != 0 && And(m, m - 1) == 0) <==> IsSingleRank(h)
  {
    var r0 := h[0].rank;
    InHandHasRank(h, h[0]);
    if m == 0 {
      ZeroNoBit(r0);
    } else {
      PowerOfTwoTest(m);
    }
    if m != 0 && And(m, m - 1) == 0 {
      var j: nat :| m == Pow2(j);
      forall c, d | c in h && d in h ensures c.rank == d.rank {
        InHandHasRank(h, c);
        InHandHasRank(h, d);
        Pow2Bit(j, c.rank);
        Pow2Bit(j, d.rank);
      }
    }
    if IsSingleRank(h) {
      forall i | 0 <= i < 13 ensures Bit(m, i) <==> Bit(Pow2(r0), i) {
        Pow2Bit(r0, i);
        if HasRank(h, i) {
          var c := HasRankWitness(h, i);
        }
      }
      Pow2Monotone(r0, 13);
      Extensional(m, Pow2(r0), 13);
      PowerOfTwoTest(m);
    }
  }

  /** isStraight: the rank mask passes the straight test iff the hand is a straight. */
  lemma StraightMaskMeaning(m: nat, h: seq<Card>)
    requires |h| > 0 && m < Pow2(13)
    requires forall r: Rank :: Bit(m, r) <==> HasRank(h, r)
    ensures IsStraightMask(m) <==> IsStraight(h)
  {
    WindowConstants(m);
    MaskIsPowerOfTwo(m, h);
    forall k | 0 <= k <= 8 ensures m == WindowMask(k) <==> IsRankWindow(h, k) {
      MaskIsWindow(m, h, k);
    }
  }

  /** isFlush: the suit mask is the first card's suit bit iff all suits are equal. */
  lemma FlushMaskMeaning(m: nat, h: seq<Card>)
    requires |h| > 0 && m < Pow2(4)
    requires forall s: Suit :: Bit(m, s) <==> HasSuit(h, s)
    ensures m == Pow2(h[0].suit) <==> IsFlush(h)
  {
    var s0 := h[0].suit;
    forall s: Suit ensures HasSuit(h, s) <==> exists c :: c in h && c.suit == s {
      HasSuitWitness(h, s);
    }
    assert HasSuit(h, s0) by { assert h[0] in h; }
    if m == Pow2(s0) {
      forall c, d | c in h && d in h ensures c.suit == d.suit {
        assert HasSuit(h, c.suit) && HasSuit(h, d.suit);
        Pow2Bit(s0, c.suit);
        Pow2Bit(s0, d.suit);
      }
    }
    if IsFlush(h) {
      forall i | 0 <= i < 4 ensures Bit(m, i) <==> Bit(Pow2(s0), i) {
        Pow2Bit(s0, i);
        if HasSuit(h, i) {
          var c :| c in h && c.suit == i;
          assert h[0] in h;
        }
      }
      Pow2Monotone(s0, 4);
      Extensional(m, Pow2(s0), 4);
    }
  }

  /** The suit mask the parse loop builds: bit s set for each card of suit s. */
  function SuitMask(h: seq<Card>): nat {
    if h == [] then 0 else Or(SuitMask(h[..|h| - 1]), Pow2(h[|h| - 1].suit))
  }

  /** The rank mask the parse loop builds: bit r set for each card of rank r. */
  function RankMask(h: seq<Card>): nat {
    if h == [] then 0 else Or(RankMask(h[..|h| - 1]), Pow2(h[|h| - 1].rank))
  }

  lemma SuitMaskSnoc(h: seq<Card>, c: Card)
    ensures SuitMask(h + [c]) == Or(SuitMask(h), Pow2(c.suit))
  {
    assert (h + [c])[..|h|] == h;
  }

  lemma RankMaskSnoc(h: seq<Card>, c: Card)
    ensures RankMask(h + [c]) == Or(RankMask(h), Pow2(c.rank))
  {
    assert (h + [c])[..|h|] == h;
  }

  lemma SuitBitStep(h: seq<Card>, c: Card, s: Suit)
    requires Bit(SuitMask(h), s) <==> HasSuit(h, s)
    ensures Bit(SuitMask(h + [c]), s) <==> HasSuit(h + [c], s)
  {
    SuitMaskSnoc(h, c);
    OrBit(SuitMask(h), Pow2(c.suit), s);
    Pow2Bit(c.suit, s);
    HasSuitSnoc(h, c, s);
  }

  lemma RankBitStep(h: seq<Card>, c: Card, r: Rank)
    requires Bit(RankMask(h), r) <==> HasRank(h, r)
    ensures Bit(RankMask(h + [c]), r) <==> HasRank(h + [c], r)
  {
    RankMaskSnoc(h, c);
    RankCountSnoc(h, c);
    OrBit(RankMask(h), Pow2(c.rank), r);
    Pow2Bit(c.rank, r);
  }

  /** The suit mask has bit s exactly for the suits present, and no bit from bit 4 up. */
  lemma {:induction false} SuitMaskBits(h: seq<Card>)
    ensures SuitMask(h) < Pow2(4)
    ensures forall s: Suit :: Bit(SuitMask(h), s) <==> HasSuit(h, s)
  {
    if h != [] {
      var init, c := h[..|h| - 1], h[|h| - 1];
      assert h == init + [c];
      SuitMaskBits(init);
      assert SuitMask(h) == Or(SuitMask(init), Pow2(c.suit));
      Pow2Monotone(c.suit, 4);
      OrBelow(SuitMask(init), Pow2(c.suit), 4);
      forall s: Suit ensures Bit(SuitMask(h), s) <==> HasSuit(h, s) {
        SuitBitStep(init, c, s);
      }
    } else {
      forall s: Suit ensures !Bit(0, s) {
        ZeroNoBit(s);
      }
    }
  }

  /** The rank mask has bit r exactly for the ranks present, and no bit from bit 13 up. */
  lemma {:induction false} RankMaskBits(h: seq<Card>)
    ensures RankMask(h) < Pow2(13)
    ensures forall r: Rank :: Bit(RankMask(h), r) <==> HasRank(h, r)
  {
    if h != [] {
      var init, c := h[..|h| - 1], h[|h| - 1];
      assert h == init + [c];
      RankMaskBits(init);
      assert RankMask(h) == Or(RankMask(init), Pow2(c.rank));
      Pow2Monotone(c.rank, 13);
      OrBelow(RankMask(init), Pow2(c.rank), 13);
      forall r: Rank ensures Bit(RankMask(h), r) <==> HasRank(h, r) {
        RankBitStep(init, c, r);
      }
    } else {
      forall r: Rank ensures !Bit(0, r) {
        ZeroNoBit(r);
      }
    }
  }

  /**
   * The category computed the way the code computes it: from the suit mask,
   * the rank mask and the rank counts, with no quantifier left.
   */
  lemma CategoryByMasks(h: seq<Card>)
    requires |h| > 0
    ensures Category(h) == Ladder(SuitMask(h) == Pow2(h[0].suit), IsStraightMask(RankMask(h)),
                                  RanksWithCount(h, 2, 13), RanksWithCount(h, 3, 13), RanksWithCount(h, 4, 13))
  {
    SuitMaskBits(h);
    RankMaskBits(h);
    FlushMaskMeaning(SuitMask(h), h);
    StraightMaskMeaning(RankMask(h), h);
  }

  /**
   * The counting pass of evaluatePokerHand: how many ranks occur exactly
   * twice, three times and four times.
   */
  method CountGroups(rankCount: array<nat>, ghost hand: seq<Card>) returns (pairs: nat, threes: nat, fours: nat)
    requires rankCount.Length == 13
    requires forall r: Rank :: rankCount[r] == RankCount(hand, r)
    ensures pairs == RanksWithCount(hand, 2, 13)
    ensures threes == RanksWithCount(hand, 3, 13)
    ensures fours == RanksWithCount(hand, 4, 13)
  {
    pairs, threes, fours := 0, 0, 0;
    for r := 0 to 13
      invariant pairs == RanksWithCount(hand, 2, r)
      invariant threes == RanksWithCount(hand, 3, r)
      invariant fours == RanksWithCount(hand, 4, r)
    {
      var count := rankCount[r];
      if count == 2 { pairs := pairs + 1; }
      if count == 3 { threes := threes + 1; }
      if count == 4 { fours := fours + 1; }
    }
  }

  /**
   * The body of the per-card loop: look the token's two characters up; if
   * both are known, remember the first suit, OR the suit and rank bits into
   * the masks and bump the rank's count.
   */
  method ScanCard(token: string, suits: nat, ranks: nat, rankCount: array<nat>, firstSuit: int, ghost hand: seq<Card>)
    returns (parsed: bool, suits': nat, ranks': nat, firstSuit': int, ghost hand': seq<Card>)
    requires |token| == 2 && rankCount.Length == 13
    requires suits == SuitMask(hand) && ranks == RankMask(hand)
    requires forall r: Rank :: rankCount[r] == RankCount(hand, r)
    requires hand == [] ==> firstSuit == -1
    requires hand != [] ==> firstSuit == hand[0].suit
    modifies rankCount
    ensures parsed <==> ParseToken(token).Some?
    ensures parsed ==> hand' == hand + [ParseToken(token).value]
    ensures parsed ==> suits' == SuitMask(hand') && ranks' == RankMask(hand')
    ensures parsed ==> forall r: Rank :: rankCount[r] == RankCount(hand', r)
    ensures parsed ==> firstSuit' == hand'[0].suit
    ensures !parsed ==> unchanged(rankCount)
  {
    var rank := IndexOf(RANKS, token[0]);
    var suit := IndexOf(SUITS, token[1]);
    RankIndexIsIndexOf(token[0]);
    SuitIndexIsIndexOf(token[1]);
    if rank == -1 || suit == -1 {
      return false, suits, ranks, firstSuit, hand;
    }
    var card := Card(rank, suit);
    firstSuit' := firstSuit;
    if firstSuit == -1 {
      firstSuit' := suit;
    }
    SuitMaskSnoc(hand, card);
    RankMaskSnoc(hand, card);
    RankCountSnoc(hand, card);
    suits' := Or(suits, Pow2(suit));
    ranks' := Or(ranks, Pow2(rank));
    rankCount[rank] := rankCount[rank] + 1;
    hand' := hand + [card];
    parsed := true;
  }

  /**
   * The per-card loop of evaluatePokerHand, over the five tokens.
   * `parsed` is false where the source returns 0 for an unknown character;
   * `hand` is the cards read.
   */
  method ScanCards(items: seq<JsValue>)
    returns (parsed: bool, suits: nat, ranks: nat, rankCount: array<nat>, firstSuit: int, ghost hand: seq<Card>)
    requires |items| == 5 && AllCardStrings(items)
    ensures fresh(rankCount) && rankCount.Length == 13
    ensures parsed <==> ParseAll(items).Some?
    ensures parsed ==> ParseAll(items) == Some(hand)
    ensures parsed ==> suits == SuitMask(hand) && ranks == RankMask(hand)
    ensures parsed ==> forall r: Rank :: rankCount[r] == RankCount(hand, r)
    ensures parsed ==> firstSuit == hand[0].suit
  {
    suits, ranks := 0, 0;
    rankCount := new nat[13](_ => 0);
    firstSuit := -1;
    hand := [];
    for i := 0 to 5
      invariant ParseAll(items[..i]) == Some(hand)
      invariant suits == SuitMask(hand) && ranks == RankMask(hand)
      invariant forall r: Rank :: rankCount[r] == RankCount(hand, r)
      invariant hand == [] ==> firstSuit == -1
      invariant hand != [] ==> firstSuit == hand[0].suit
    {
      ParseAllSnoc(items, i);
      parsed, suits, ranks, firstSuit, hand := ScanCard(items[i].chars, suits, ranks, rankCount, firstSuit, hand);
      if !parsed {
        ParsePrefixNone(items, i + 1);
        return;
      }
    }
    assert items[..5] == items;
    parsed := true;
  }

  /**
   * The flush and straight tests and the precedence ladder, on the masks and
   * counts of a parsed hand.
   */
  method Classify(suits: nat, ranks: nat, rankCount: array<nat>, firstSuit: int, ghost hand: seq<Card>)
    returns (category: nat)
    requires |hand| == 5 && firstSuit == hand[0].suit
    requires suits == SuitMask(hand) && ranks == RankMask(hand)
    requires rankCount.Length == 13 && forall r: Rank :: rankCount[r] == RankCount(hand, r)
    ensures category == Category(hand)
  {
    CategoryByMasks(hand);
    var isFlush := suits == Pow2(firstSuit);
    var isStraight := IsStraightMask(ranks);
    if isFlush && isStraight {
      return 9;
    }

    var pairs, threes, fours := CountGroups(rankCount, hand);

    if fours > 0 { return 8; }
    if threes > 0 && pairs > 0 { return 7; }
    if isFlush { return 6; }
    if isStraight { return 5; }
    if threes > 0 { return 4; }
    if pairs == 2 { return 3; }
    if pairs == 1 { return 2; }
    return 1;
  }

  /**
   * evaluatePokerHand: the three input checks, then one pass over the cards
   * building the suit mask, the rank mask and the per-rank counts, then the
   * pair/three/four counters and the precedence ladder.
   */
  method EvaluatePokerHand(cards: JsValue) returns (result: Result<nat, EvalError>)
    ensures result == Evaluate(cards)
  {
    if !cards.JsArray? {
      return Failure(NotAnArray);
    }
    var items := cards.items;
    if |items| != 5 {
      return Failure(WrongCardCount);
    }
    if !(forall i | 0 <= i < 5 :: IsCardString(items[i])) {
      return Failure(MalformedCard);
    }

    var parsed, suits, ranks, rankCount, firstSuit, hand := ScanCards(items);
    if !parsed {
      return Success(0);
    }
    var category := Classify(suits, ranks, rankCount, firstSuit, hand);
    return Success(category);
  }
}
