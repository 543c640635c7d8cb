/**
 * What evaluatePokerHand promises about whole hands: which inputs score 0,
 * that card order does not matter, that A-2-3-4-5 is not a straight, and
 * that the "all one rank" straight branch needs a repeated card.
 */
module HandProperties {
  import opened Wrappers
  import opened Cards
  import opened HandRanking

  /**
   * Five two-character strings score 0 exactly when some card has a rank
   * character outside RANKS or a suit character outside SUITS.
   */
  lemma ZeroIffUnknownCharacter(v: JsValue)
    requires v.JsArray? && |v.items| == 5 && AllCardStrings(v.items)
    ensures Evaluate(v).Success?
    ensures Evaluate(v).value == 0 <==>
      exists i :: 0 <= i < 5 && (v.items[i].chars[0] !in RANKS || v.items[i].chars[1] !in SUITS)
  {
    ParseAllNone(v.items);
    forall i | 0 <= i < 5 {
      ParseTokenNone(v.items[i].chars);
    }
  }

  /** A rank that every card has is counted once per card. */
  lemma {:induction false} RankCountAll(h: seq<Card>, r: Rank)
    requires forall c :: c in h ==> c.rank == r
    ensures RankCount(h, r) == |h|
  {
    if h != [] {
      var init := h[..|h| - 1];
      assert forall c :: c in init ==> c in h;
      RankCountAll(init, r);
      assert h[|h| - 1] in h;
    }
  }

  /** A sequence without repeats holds each value at most once. */
  lemma {:induction false} DistinctAtMostOnce<T>(s: seq<T>, x: T)
    requires Distinct(s)
    ensures multiset(s)[x] <= 1
  {
    if s != [] {
      var init := s[..|s| - 1];
      assert s == init + [s[|s| - 1]];
      assert Distinct(init);
      DistinctAtMostOnce(init, x);
      if x == s[|s| - 1] {
        assert x !in init;
      }
    }
  }

  /**
   * Five different cards never share one rank (there are only four suits),
   * so the power-of-two straight branch only fires on a repeated card.
   */
  lemma DistinctNeverSingleRank(h: seq<Card>)
    requires |h| == 5 && Distinct(h)
    ensures !IsSingleRank(h)
  {
    if IsSingleRank(h) {
      var r := h[0].rank;
      assert h[0] in h;
      RankCountAll(h, r);
      RankCountMultiset(h, r);
      DistinctAtMostOnce(h, Card(r, 0));
      DistinctAtMostOnce(h, Card(r, 1));
      DistinctAtMostOnce(h, Card(r, 2));
      DistinctAtMostOnce(h, Card(r, 3));
      assert false;
    }
  }

  /** For five different cards a straight is exactly five consecutive ranks. */
  lemma DistinctStraight(h: seq<Card>)
    requires |h| == 5 && Distinct(h)
    ensures IsStraight(h) <==> exists k :: 0 <= k <= 8 && IsRankWindow(h, k)
  {
    DistinctNeverSingleRank(h);
  }

  /** Two ranks five or more apart cannot both lie in one window of five, nor be one rank. */
  lemma SpreadNotStraight(h: seq<Card>, a: Rank, b: Rank)
    requires HasRank(h, a) && HasRank(h, b) && a + 5 <= b
    ensures !IsStraight(h)
  {
    var c := HasRankWitness(h, a);
    var d := HasRankWitness(h, b);
    assert c.rank != d.rank;
    forall k | 0 <= k <= 8 ensures !IsRankWindow(h, k) {
      assert !(k <= a < k + 5 && k <= b < k + 5);
    }
  }

  /**
   * The wheel: a hand holding an ace and a two is never a straight, so it
   * never scores 5 (Straight) or 9 (Straight Flush).
   */
  lemma WheelNotStraight(h: seq<Card>)
    requires HasRank(h, 12) && HasRank(h, 0)
    ensures !IsStraight(h)
    ensures Category(h) != 5 && Category(h) != 9
  {
    SpreadNotStraight(h, 0, 12);
  }

  /** Hands with the same rank tallies have the same number of ranks of each size. */
  lemma {:induction false} RanksWithCountCongruent(h: seq<Card>, g: seq<Card>, n: nat, upto: nat)
    requires upto <= 13
    requires forall r: Rank :: RankCount(h, r) == RankCount(g, r)
    ensures RanksWithCount(h, n, upto) == RanksWithCount(g, n, upto)
  {
    if upto > 0 {
      RanksWithCountCongruent(h, g, n, upto - 1);
      var last: Rank := upto - 1;
      assert RankCount(h, last) == RankCount(g, last);
    }
  }

  /** The category depends only on which cards the hand holds, not on their order. */
  lemma CategoryPermutation(h: seq<Card>, g: seq<Card>)
    requires multiset(h) == multiset(g)
    ensures Category(h) == Category(g)
  {
    forall r: Rank ensures RankCount(h, r) == RankCount(g, r) {
      RankCountMultiset(h, r);
      RankCountMultiset(g, r);
    }
    forall c ensures c in h <==> c in g {
      assert c in h <==> c in multiset(h);
      assert c in g <==> c in multiset(g);
    }
    RanksWithCountCongruent(h, g, 2, 13);
    RanksWithCountCongruent(h, g, 3, 13);
    RanksWithCountCongruent(h, g, 4, 13);
    assert IsFlush(h) == IsFlush(g);
    assert IsSingleRank(h) == IsSingleRank(g);
    forall r: Rank ensures HasRank(h, r) == HasRank(g, r) {
    }
    forall k ensures IsRankWindow(h, k) == IsRankWindow(g, k) {
    }
  }

  /** The tally RanksWithCount is the size of the set of ranks below `upto` that occur exactly n times. */
  lemma {:induction false} RanksWithCountSet(h: seq<Card>, n: nat, upto: nat, ranks: set<Rank>)
    requires upto <= 13
    requires forall r: Rank :: r in ranks <==> r < upto && RankCount(h, r) == n
    ensures RanksWithCount(h, n, upto) == |ranks|
  {
    if upto == 0 {
      assert ranks == {};
    } else {
      var last: Rank := upto - 1;
      var below := ranks - {last};
      RanksWithCountSet(h, n, last, below);
      if RankCount(h, last) == n {
        assert ranks == below + {last};
      } else {
        assert ranks == below;
      }
    }
  }

  /** The card a token denotes, or an arbitrary card for a token that does not parse. */
  function TokenCard(v: JsValue): Card {
    if IsCardString(v) && ParseToken(v.chars).Some? then ParseToken(v.chars).value else Card(0, 0)
  }

  /** The cards of a sequence of tokens, read one by one. */
  function CardsOf(ts: seq<JsValue>): seq<Card> {
    seq(|ts|, i requires 0 <= i < |ts| => TokenCard(ts[i]))
  }

  lemma CardsOfConcat(a: seq<JsValue>, b: seq<JsValue>)
    ensures CardsOf(a + b) == CardsOf(a) + CardsOf(b)
  {
  }

  /** Taking token j out of the sequence takes its card out of the cards' multiset. */
  lemma CardsOfRemove(us: seq<JsValue>, j: nat)
    requires j < |us|
    ensures multiset(CardsOf(us)) == multiset(CardsOf(us[..j] + us[j + 1..])) + multiset{TokenCard(us[j])}
  {
    assert us == us[..j] + [us[j]] + us[j + 1..];
    CardsOfConcat(us[..j] + [us[j]], us[j + 1..]);
    CardsOfConcat(us[..j], [us[j]]);
    CardsOfConcat(us[..j], us[j + 1..]);
  }

  /** Taking token j out of the sequence takes it out of the tokens' multiset. */
  lemma TokensRemove(us: seq<JsValue>, j: nat)
    requires j < |us|
    ensures multiset(us) == multiset(us[..j] + us[j + 1..]) + multiset{us[j]}
  {
    assert us == us[..j] + [us[j]] + us[j + 1..];
  }

  /** Token sequences holding the same tokens give card sequences holding the same cards. */
  lemma {:induction false} CardsOfPermutation(ts: seq<JsValue>, us: seq<JsValue>)
    requires multiset(ts) == multiset(us)
    ensures multiset(CardsOf(ts)) == multiset(CardsOf(us))
    decreases |ts|
  {
    if ts == [] {
      assert |us| == |multiset(us)| == 0;
    } else {
      var n := |ts| - 1;
      var x := ts[n];
      assert x in multiset(us);
      var j :| 0 <= j < |us| && us[j] == x;
      var rest := us[..j] + us[j + 1..];
      TokensRemove(ts, n);
      TokensRemove(us, j);
      assert ts[..n] + ts[n + 1..] == ts[..n];
      assert multiset(ts[..n]) == multiset(ts) - multiset{x} == multiset(us) - multiset{x} == multiset(rest);
      CardsOfPermutation(ts[..n], rest);
      CardsOfRemove(ts, n);
      CardsOfRemove(us, j);
    }
  }

  /** A token sequence that parses reads as its cards, in order. */
  lemma ParseAllCardsOf(ts: seq<JsValue>)
    requires AllCardStrings(ts) && ParseAll(ts).Some?
    ensures ParseAll(ts).value == CardsOf(ts)
  {
    var h := ParseAll(ts).value;
    ParseAllPointwise(ts, h);
    ParseAllPointwise(ts, CardsOf(ts));
  }

  /** Same tokens, in any order: all are card strings in both or in neither. */
  lemma CardStringsPermutation(ts: seq<JsValue>, us: seq<JsValue>)
    requires multiset(ts) == multiset(us)
    ensures AllCardStrings(ts) <==> AllCardStrings(us)
  {
    forall x ensures x in ts <==> x in us {
      assert x in ts <==> x in multiset(ts);
      assert x in us <==> x in multiset(us);
    }
    if AllCardStrings(ts) {
      forall i | 0 <= i < |us| ensures IsCardString(us[i]) {
        assert us[i] in ts;
      }
    }
    if AllCardStrings(us) {
      forall i | 0 <= i < |ts| ensures IsCardString(ts[i]) {
        assert ts[i] in us;
      }
    }
  }

  /** Same card-string tokens, in any order: the parse fails for both or for neither. */
  lemma ParseNonePermutation(ts: seq<JsValue>, us: seq<JsValue>)
    requires AllCardStrings(ts) && AllCardStrings(us) && multiset(ts) == multiset(us)
    ensures ParseAll(ts).None? <==> ParseAll(us).None?
  {
    ParseAllNone(ts);
    ParseAllNone(us);
    forall x ensures x in ts <==> x in us {
      assert x in ts <==> x in multiset(ts);
      assert x in us <==> x in multiset(us);
    }
    if i :| 0 <= i < |ts| && ParseToken(ts[i].chars).None? {
      assert ts[i] in us;
    }
    if i :| 0 <= i < |us| && ParseToken(us[i].chars).None? {
      assert us[i] in ts;
    }
  }

  /**
   * evaluatePokerHand does not depend on the order of the input array: the
   * same items in any order give the same thrown error or the same result.
   */
  lemma EvaluatePermutation(v: JsValue, w: JsValue)
    requires v.JsArray? && w.JsArray? && multiset(v.items) == multiset(w.items)
    ensures Evaluate(v) == Evaluate(w)
  {
    assert |v.items| == |multiset(v.items)| == |multiset(w.items)| == |w.items|;
    CardStringsPermutation(v.items, w.items);
    if |v.items| == 5 && AllCardStrings(v.items) {
      ParseNonePermutation(v.items, w.items);
      if ParseAll(v.items).Some? {
        ParseAllCardsOf(v.items);
        ParseAllCardsOf(w.items);
        CardsOfPermutation(v.items, w.items);
        CategoryPermutation(ParseAll(v.items).value, ParseAll(w.items).value);
      }
    }
  }
}
