/**
 * What evaluatePokerHand computes, stated without bit masks: the input
 * checks, the per-card parse, and the hand category 1..9 defined from the
 * multiset of cards (rank counts, "all one suit", "five consecutive ranks").
 */
module HandRanking {
  import opened Wrappers
  import opened Cards

  /** The JavaScript values evaluatePokerHand can be given. */
  datatype JsValue = JsString(chars: string) | JsArray(items: seq<JsValue>) | JsOther

  /** The three errors evaluatePokerHand throws. */
  datatype EvalError = NotAnArray | WrongCardCount | MalformedCard

  /** `typeof card === "string" && card.length === 2` */
  predicate IsCardString(v: JsValue) {
    v.JsString? && |v.chars| == 2
  }

  predicate AllCardStrings(items: seq<JsValue>) {
    forall i :: 0 <= i < |items| ==> IsCardString(items[i])
  }

  /**
   * The parse loop: the cards the tokens denote, in input order, or None as
   * soon as one token has an unknown rank or suit character.
   */
  function ParseAll(ts: seq<JsValue>): (r: Option<seq<Card>>)
    requires AllCardStrings(ts)
    ensures r.Some? ==> |r.value| == |ts|
  {
    if ts == [] then Some([])
    else match ParseAll(ts[..|ts| - 1])
      case None => None
      case Some(h) =>
        match ParseToken(ts[|ts| - 1].chars)
        case None => None
        case Some(c) => Some(h + [c])
  }

  /** How many cards of the hand have rank r (an entry of `rankCount`). */
  function RankCount(h: seq<Card>, r: Rank): nat {
    if h == [] then 0
    else RankCount(h[..|h| - 1], r) + (if h[|h| - 1].rank == r then 1 else 0)
  }

  predicate HasRank(h: seq<Card>, r: Rank) {
    RankCount(h, r) > 0
  }

  /** Some card of the hand has suit s. */
  predicate HasSuit(h: seq<Card>, s: Suit) {
    |h| > 0 && (h[|h| - 1].suit == s || HasSuit(h[..|h| - 1], s))
  }

  /** All cards share one suit. */
  predicate IsFlush(h: seq<Card>) {
    forall c, d :: c in h && d in h ==> c.suit == d.suit
  }

  /** All cards share one rank (only possible with repeated cards). */
  predicate IsSingleRank(h: seq<Card>) {
    forall c, d :: c in h && d in h ==> c.rank == d.rank
  }

  /** The ranks present are exactly k, k+1, ..., k+4. */
  predicate IsRankWindow(h: seq<Card>, k: nat) {
    forall r: Rank :: HasRank(h, r) <==> k <= r < k + 5
  }

  /**
   * The straight test of the code: five consecutive ranks starting at "2"
   * up to starting at "9" (so not the ace-low A-2-3-4-5), or one rank only.
   */
  predicate IsStraight(h: seq<Card>) {
    (exists k :: 0 <= k <= 8 && IsRankWindow(h, k)) || IsSingleRank(h)
  }

  /** The number of ranks below `upto` that occur exactly n times. */
  function RanksWithCount(h: seq<Card>, n: nat, upto: nat): (k: nat)
    requires upto <= 13
    ensures k <= upto
  {
    if upto == 0 then 0
    else RanksWithCount(h, n, upto - 1) + (if RankCount(h, upto - 1) == n then 1 else 0)
  }

  /** Some rank below `upto` occurs exactly n times iff the tally is positive. */
  lemma {:induction false} RanksWithCountPositive(h: seq<Card>, n: nat, upto: nat)
    requires upto <= 13
    ensures RanksWithCount(h, n, upto) > 0 <==> exists r: Rank :: r < upto && RankCount(h, r) == n
  {
    if upto > 0 {
      RanksWithCountPositive(h, n, upto - 1);
      var last: Rank := upto - 1;
      assert RanksWithCount(h, n, upto) == RanksWithCount(h, n, last) + (if RankCount(h, last) == n then 1 else 0);
      if RankCount(h, last) == n {
        assert last < upto && RankCount(h, last) == n;
      } else {
        forall r: Rank | r < upto && RankCount(h, r) == n ensures r < last {
        }
      }
    }
  }

  /** The precedence ladder: straight flush 9 down to high card 1. */
  function Ladder(flush: bool, straight: bool, pairs: nat, threes: nat, fours: nat): (c: nat)
    ensures 1 <= c <= 9
  {
    if flush && straight then 9
    else if fours > 0 then 8
    else if threes > 0 && pairs > 0 then 7
    else if flush then 6
    else if straight then 5
    else if threes > 0 then 4
    else if pairs == 2 then 3
    else if pairs == 1 then 2
    else 1
  }

  /** The category of a hand whose tokens all parse. */
  function Category(h: seq<Card>): nat {
    Ladder(IsFlush(h), IsStraight(h),
           RanksWithCount(h, 2, 13), RanksWithCount(h, 3, 13), RanksWithCount(h, 4, 13))
  }

  /** The outcome of the parse loop and the ladder on well-formed input. */
  function EvaluateCards(ts: seq<JsValue>): (r: nat)
    requires AllCardStrings(ts)
    ensures r <= 9
  {
    match ParseAll(ts)
    case None => 0
    case Some(h) => Category(h)
  }

  /** evaluatePokerHand: a thrown error, 0 for an unknown character, else the category. */
  function Evaluate(v: JsValue): (r: Result<nat, EvalError>)
    ensures r == Failure(NotAnArray) <==> !v.JsArray?
    ensures r == Failure(WrongCardCount) <==> v.JsArray? && |v.items| != 5
    ensures r == Failure(MalformedCard) <==> v.JsArray? && |v.items| == 5 && !AllCardStrings(v.items)
    ensures r.Success? ==> r.value <= 9
  {
    if !v.JsArray? then Failure(NotAnArray)
    else if |v.items| != 5 then Failure(WrongCardCount)
    else if !AllCardStrings(v.items) then Failure(MalformedCard)
    else Success(EvaluateCards(v.items))
  }

  lemma ParseAllSnoc(ts: seq<JsValue>, i: nat)
    requires AllCardStrings(ts) && i < |ts|
    ensures ParseAll(ts[..i + 1]) ==
      match ParseAll(ts[..i])
      case None => None
      case Some(h) => (match ParseToken(ts[i].chars) case None => None case Some(c) => Some(h + [c]))
  {
    assert ts[..i + 1][..i] == ts[..i];
  }

  /** The parse fails exactly when some token has an unknown character. */
  lemma {:induction false} ParseAllNone(ts: seq<JsValue>)
    requires AllCardStrings(ts)
    ensures ParseAll(ts).None? <==> exists i :: 0 <= i < |ts| && ParseToken(ts[i].chars).None?
  {
    if ts != [] {
      var init, last := ts[..|ts| - 1], ts[|ts| - 1];
      assert ParseAll(ts).None? <==> ParseAll(init).None? || ParseToken(last.chars).None?;
      ParseAllNone(init);
      if i :| 0 <= i < |ts| && ParseToken(ts[i].chars).None? {
        if i < |init| {
          assert init[i] == ts[i];
        }
      }
      if i :| 0 <= i < |init| && ParseToken(init[i].chars).None? {
        assert init[i] == ts[i];
      }
    }
  }

  /** The parse loop reads each token on its own: it yields h iff token i parses to h[i] for every i. */
  lemma {:induction false} ParseAllPointwise(ts: seq<JsValue>, h: seq<Card>)
    requires AllCardStrings(ts)
    ensures ParseAll(ts) == Some(h) <==> |h| == |ts| && forall i :: 0 <= i < |ts| ==> ParseToken(ts[i].chars) == Some(h[i])
  {
    if ts != [] && |h| == |ts| {
      var n := |ts| - 1;
      ParseAllPointwise(ts[..n], h[..n]);
      assert h == h[..n] + [h[n]];
      forall i | 0 <= i < n ensures ts[..n][i] == ts[i] && h[..n][i] == h[i] {}
    } else if ts != [] {
      ParseAllPointwise(ts[..|ts| - 1], h);
    }
  }

  /** A successful parse yields one card per token, each printing back as its token. */
  lemma {:induction false} ParseAllTokens(ts: seq<JsValue>)
    requires AllCardStrings(ts) && ParseAll(ts).Some?
    ensures forall i :: 0 <= i < |ts| ==> Token(ParseAll(ts).value[i]) == ts[i].chars
  {
    if ts != [] {
      var init := ts[..|ts| - 1];
      ParseAllTokens(init);
      forall i | 0 <= i < |ts| ensures Token(ParseAll(ts).value[i]) == ts[i].chars {
        if i < |init| {
          assert init[i] == ts[i];
        }
      }
    }
  }

  /** A prefix that fails to parse makes the whole sequence fail. */
  lemma {:induction false} ParsePrefixNone(ts: seq<JsValue>, i: nat)
    requires AllCardStrings(ts) && i <= |ts| && ParseAll(ts[..i]).None?
    ensures ParseAll(ts).None?
    decreases |ts| - i
  {
    if i < |ts| {
      ParseAllSnoc(ts, i);
      ParsePrefixNone(ts, i + 1);
    } else {
      assert ts[..i] == ts;
    }
  }

  lemma RankCountSnoc(h: seq<Card>, c: Card)
    ensures forall r: Rank :: RankCount(h + [c], r) == RankCount(h, r) + (if c.rank == r then 1 else 0)
  {
    assert (h + [c])[..|h|] == h;
  }

  /** A rank is counted exactly when some card of the hand has it. */
  lemma {:induction false} HasRankIff(h: seq<Card>, r: Rank)
    ensures HasRank(h, r) <==> exists c :: c in h && c.rank == r
  {
    if h != [] {
      var init := h[..|h| - 1];
      assert h == init + [h[|h| - 1]];
      HasRankIff(init, r);
      if c :| c in h && c.rank == r {
        assert c in init || c == h[|h| - 1];
      }
    }
  }

  /** A card of the hand contributes to its rank's count. */
  lemma InHandHasRank(h: seq<Card>, c: Card)
    requires c in h
    ensures HasRank(h, c.rank)
  {
    HasRankIff(h, c.rank);
  }

  /** A rank that is counted is the rank of some card of the hand. */
  lemma HasRankWitness(h: seq<Card>, r: Rank) returns (c: Card)
    requires HasRank(h, r)
    ensures c in h && c.rank == r
  {
    HasRankIff(h, r);
    c :| c in h && c.rank == r;
  }

  /** The count of a rank depends only on the multiset of cards. */
  lemma {:induction false} RankCountMultiset(h: seq<Card>, r: Rank)
    ensures RankCount(h, r) == multiset(h)[Card(r, 0)] + multiset(h)[Card(r, 1)]
                               + multiset(h)[Card(r, 2)] + multiset(h)[Card(r, 3)]
  {
    if h != [] {
      var init := h[..|h| - 1];
      assert h == init + [h[|h| - 1]];
      assert multiset(h) == multiset(init) + multiset{h[|h| - 1]};
      RankCountMultiset(init, r);
    }
  }

  lemma HasSuitSnoc(h: seq<Card>, c: Card, s: Suit)
    ensures HasSuit(h + [c], s) <==> HasSuit(h, s) || c.suit == s
  {
    assert (h + [c])[..|h|] == h;
  }

  lemma {:induction false} HasSuitWitness(h: seq<Card>, s: Suit)
    ensures HasSuit(h, s) <==> exists c :: c in h && c.suit == s
  {
    if |h| > 0 {
      var init := h[..|h| - 1];
      assert h == init + [h[|h| - 1]];
      HasSuitWitness(init, s);
      if c :| c in h && c.suit == s {
        assert c in init || c == h[|h| - 1];
      }
    }
  }
}
