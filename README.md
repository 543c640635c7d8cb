# Video poker: hand evaluator and dealers

A Dafny model of the game logic of a browser video-poker game. The model covers three parts.

- **`evaluatePokerHand`** (poker.js:53-122; index.js:29-98 holds the same code, line for line) scores five two-character card tokens.
  - It checks the input's shape and throws on a bad shape.
  - It returns 0 for an unknown rank or suit character.
  - Otherwise it builds a suit bit mask, a rank bit mask and a per-rank count array. From these it picks a category from 1 (High Card) up to 9 (Straight Flush) by a fixed precedence.
- **`dealHand` of poker.js** (poker.js:32-50) builds the rank-major deck and shuffles it with a 51-step Fisher-Yates loop. It counts the steps that swap two different slots, rates the shuffle "good" when that count is above 20, and returns `slice(0, count)`.
- **src/dealer.js** has three functions.
  - `createShuffledDeck` builds the suit-major deck and shuffles it with a 52-step `while` loop.
  - `analyzeShuffleQuality` counts the deck's `runs` (same-suit or rank-adjacent neighbours) and the per-suit `suitRuns`.
  - `dealHand` range-checks the hand size and hands out the first cards.

Module layout:
- `Cards`: the `RANKS`/`SUITS`/`HANDS` constants, `indexOf`, card tokens and their parse.
- `Bits`: OR, AND, shift and power-of-two arithmetic on naturals.
- `HandRanking`: what the evaluator computes, stated without masks. It covers the input errors, the parse, rank counts, flush, straight and the ladder.
- `Evaluator`: the imperative evaluator, proved equal to `HandRanking.Evaluate`.
- `HandProperties`: facts about the ranking: the 0 result, no wheel, order independence.
- `TestVectors`: the hands of `__src/testCases.js` and what they score.
- `Decks`: the two ordered decks.
- `FisherYates`: the shuffle as a function of the chosen indices.
- `PokerDeal` and `Dealer`: the two dealers as methods over arrays.

The evaluator follows the code, not the comments beside the test data.
- The straight test compares the rank mask with the nine windows `0x1f << k` for k = 0..8, or checks that the mask has a single bit set. A-2-3-4-5 is therefore not a straight, and `AC 2D 3H 4S 5C` (labelled "Wheel Straight" at __src/testCases.js:8) scores 1, High Card.
- Repeated cards are not rejected. `AS AS AS AS AS` has a single-bit rank mask, so it counts as a straight. It is also a flush, so it scores 9.

Randomness is a parameter. `Math.random` is replaced by a sequence `picks` of chosen indices, and the preconditions restrict each pick to the range the source's expression can produce. Step k of a pass over n slots swaps slot n-1-k with slot picks[k], where picks[k] <= n-1-k.
- In poker.js, step k has i = 51 - k and j = picks[k].
- In src/dealer.js, step k has currentIndex = 52 - k before the decrement, and randomIndex = picks[k].

Both loops are proved to compute the same function, `FisherYates.Shuffled`.

## Model

| member | source | states |
|---|---|---|
| Cards.IndexOf | poker.js:76-77 | `indexOf` on the alphabet gives -1 or a position that holds the character |
| Cards.IndexOfFirst | poker.js:76-79 | `indexOf` is -1 exactly when the character is absent; otherwise the character does not occur before that position |
| Cards.IndexOfDistinct | poker.js:76-77 | in an alphabet without repeats, `indexOf` inverts indexing |
| Cards.AlphabetsDistinct | poker.js:2-17 | `RANKS` and `SUITS` repeat no character |
| Cards.RankIndexIsIndexOf | poker.js:76 | the rank lookup table agrees with `RANKS.indexOf` on every character |
| Cards.SuitIndexIsIndexOf | poker.js:77 | the suit lookup table agrees with `SUITS.indexOf` on every character |
| Cards.ParseToken | poker.js:74-79 | a token that parses spells out the parsed card's rank and suit characters |
| Cards.ParseTokenNone | poker.js:79 | a two-character token fails to parse exactly when its rank character is not in `RANKS` or its suit character is not in `SUITS` |
| Cards.TokenRoundTrip | poker.js:36 | parsing the token `rank + suit` of a card gives the card back |
| Cards.TokenInjective | poker.js:36 | two cards have the same token exactly when they are the same card |
| Cards.HandName | poker.js:18-29 | the name shown for a result, `HANDS[handRank] \|\| "Invalid Hand"` (poker.js:271), is "Invalid Hand" exactly for 0 or an index past the table, and the table entry otherwise |
| Bits.PowerOfTwoTest | poker.js:90 | for a nonzero mask, `m & (m - 1)` is 0 exactly when m is a power of two |
| Bits.OrBit | poker.js:83-84 | bit k of `a \| b` is set exactly when it is set in a or in b |
| Bits.ShlBit | poker.js:83-84 | bit i of `m << k` is bit i - k of m, and clear below k |
| Bits.WindowBits | poker.js:92-100 | `0x1f << k` has exactly the bits k..k+4 set |
| HandRanking.Evaluate | poker.js:55-65 | "not an array" is thrown exactly for a non-array; "exactly 5 cards" exactly for an array of the wrong length; "2-character string" exactly for five items not all two-character strings; otherwise a result in 0..9 (the same checks are index.js:31-41) |
| HandRanking.ParseAll | poker.js:73-86 | the parse loop yields one card per token |
| HandRanking.ParseAllNone | poker.js:73-79 | the loop stops with 0 exactly when some token has an unknown character |
| HandRanking.ParseAllPointwise | poker.js:73-86 | the loop yields hand h exactly when each token i parses to card h[i] |
| HandRanking.ParseAllTokens | poker.js:73-86 | each card read spells out its token |
| HandRanking.ParsePrefixNone | poker.js:79 | once a token fails, the whole loop returns 0 |
| HandRanking.RanksWithCount | poker.js:105-112 | the pair/three/four counters never exceed the number of ranks looked at |
| HandRanking.RanksWithCountPositive | poker.js:108-112 | a counter is nonzero exactly when some rank occurs that many times |
| HandRanking.Ladder | poker.js:102-121 | the precedence ladder returns a category in 1..9 |
| HandRanking.EvaluateCards | index.js:22-27 | on well-formed input the result is in 0..9, as the doc comment promises |
| HandRanking.RankCountSnoc | poker.js:85 | reading one more card bumps exactly that card's rank count |
| HandRanking.RankCountMultiset | poker.js:85 | `rankCount[r]` is the number of the hand's cards of rank r, whatever their order |
| HandRanking.HasRankIff | poker.js:84 | rank r is present exactly when some card has rank r |
| HandRanking.HasSuitWitness | poker.js:83 | suit s is present exactly when some card has suit s |
| Evaluator.WindowConstants | poker.js:92-100 | the nine straight constants are exactly `0x1f << k` for k in 0..8 |
| Evaluator.WindowMaskBits | poker.js:92-100 | window k has exactly the rank bits k..k+4 and fits in 13 bits |
| Evaluator.MaskIsWindow | poker.js:92-100 | the rank mask equals window k exactly when the ranks present are k..k+4 |
| Evaluator.MaskIsPowerOfTwo | poker.js:90 | the single-bit test on the rank mask holds exactly when all cards share one rank |
| Evaluator.StraightMaskMeaning | poker.js:89-100 | `isStraight` holds exactly when the ranks are five consecutive ones from "2" up to "T", or a single rank |
| Evaluator.FlushMaskMeaning | poker.js:81-88 | `suits === 1 << firstSuit` holds exactly when all cards have one suit |
| Evaluator.SuitMaskBits | poker.js:83 | after the loop, suit bit s is set exactly when some card has suit s |
| Evaluator.RankMaskBits | poker.js:84 | after the loop, rank bit r is set exactly when some card has rank r |
| Evaluator.CategoryByMasks | poker.js:88-121 | the ladder over the masks and counters gives the mask-free category |
| Evaluator.CountGroups | poker.js:105-112 | `pairs`, `threes` and `fours` are the numbers of ranks with count 2, 3 and 4 |
| Evaluator.ScanCard | poker.js:74-85 | one card: it parses exactly when both characters are known; then the masks, the counts and `firstSuit` take in that card |
| Evaluator.ScanCards | poker.js:73-86 | the loop finishes exactly when every token parses; the masks, counts and `firstSuit` are then those of the parsed hand |
| Evaluator.Classify | poker.js:88-121 | the flush and straight tests and the ladder give the category of the parsed hand |
| Evaluator.EvaluatePokerHand | poker.js:53-122 | the imperative evaluator returns exactly `HandRanking.Evaluate` on every input; index.js:29-98 is the same text, so the two copies agree on every input |
| HandProperties.ZeroIffUnknownCharacter | poker.js:73-79 | on well-formed input the result is 0 exactly when some token has a rank character outside `RANKS` or a suit character outside `SUITS` |
| HandProperties.DistinctNeverSingleRank | poker.js:90 | five different cards never pass the single-bit test |
| HandProperties.DistinctStraight | poker.js:89-100 | for five different cards a straight is exactly five consecutive ranks |
| HandProperties.SpreadNotStraight | poker.js:89-100 | two ranks five or more apart rule out a straight |
| HandProperties.WheelNotStraight | poker.js:92-100 | a hand with an ace and a "2" is never a straight and never scores 5 or 9 (no wheel) |
| HandProperties.RanksWithCountCongruent | poker.js:108-112 | hands with equal rank counts have equal pair/three/four counters |
| HandProperties.CategoryPermutation | poker.js:73-121 | the category depends only on the multiset of cards, not their order |
| HandProperties.CardStringsPermutation | poker.js:63-65 | the same items in any order are all two-character strings in both arrays or in neither |
| HandProperties.ParseNonePermutation | poker.js:73-79 | the same tokens in any order: the loop returns 0 for both or for neither |
| HandProperties.CardsOfPermutation | poker.js:73-86 | the same tokens in any order denote the same multiset of cards |
| HandProperties.EvaluatePermutation | poker.js:53-122 | `evaluatePokerHand` on two arrays holding the same items in any order throws the same error or returns the same result |
| HandProperties.RanksWithCountSet | poker.js:108-112 | a counter equals the number of ranks that occur that many times |
| TestVectors.EvaluateHand | poker.js:53-122 | five tokens that parse to the cards h score the category of h |
| TestVectors.RoyalFlushCategory | __src/testCases.js:2 | AS KS QS JS TS is a straight flush |
| TestVectors.RoyalFlush | index.js:27 | `evaluatePokerHand(["AS","KS","QS","JS","TS"])` is 9 |
| TestVectors.RoyalFlushName | poker.js:269-271 | the royal flush is shown as "Straight Flush" |
| TestVectors.StraightFlushCategory | __src/testCases.js:3 | KS QS JS TS 9S is a straight flush |
| TestVectors.StraightFlush | __src/testCases.js:3 | it scores 9 |
| TestVectors.FourOfAKindCategory | __src/testCases.js:4 | 7H 7D 7S 7C JD is four of a kind |
| TestVectors.FourOfAKind | __src/testCases.js:4 | it scores 8 |
| TestVectors.FullHouseCategory | __src/testCases.js:5 | TS TC TH JD JC is a full house |
| TestVectors.FullHouse | __src/testCases.js:5 | it scores 7 |
| TestVectors.FlushCategory | __src/testCases.js:6 | 2H 3H 4H 5H 7H is a flush |
| TestVectors.Flush | __src/testCases.js:6 | it scores 6 |
| TestVectors.StraightCategory | __src/testCases.js:7 | 9C TC JD QH KS is a straight |
| TestVectors.Straight | __src/testCases.js:7 | it scores 5 |
| TestVectors.WheelCategory | __src/testCases.js:8 | AC 2D 3H 4S 5C is High Card: the code has no wheel, whatever the label says |
| TestVectors.Wheel | __src/testCases.js:8 | it scores 1 |
| TestVectors.WheelName | poker.js:269-271 | A-2-3-4-5 is shown as "High Card" |
| TestVectors.ThreeOfAKindCategory | __src/testCases.js:9 | QC QH QS 9H 2D is three of a kind |
| TestVectors.ThreeOfAKind | __src/testCases.js:9 | it scores 4 |
| TestVectors.TwoPairCategory | __src/testCases.js:10 | KH KD JC JS 7C is two pair |
| TestVectors.TwoPair | __src/testCases.js:10 | it scores 3 |
| TestVectors.OnePairCategory | __src/testCases.js:11 | AH AD 8C 4S 2C is one pair |
| TestVectors.OnePair | __src/testCases.js:11 | it scores 2 |
| TestVectors.HighCardKingCategory | __src/testCases.js:12 | KH JD 8C 7S 3H is high card |
| TestVectors.HighCardKing | __src/testCases.js:12 | it scores 1 |
| TestVectors.HighCardNineCategory | __src/testCases.js:13 | 9D 4D 8C 7S 3H is high card |
| TestVectors.HighCardNine | __src/testCases.js:13 | it scores 1 |
| TestVectors.MixedNoPairsCategory | __src/testCases.js:14 | 2C 4D 6H 8S TD is high card |
| TestVectors.MixedNoPairs | __src/testCases.js:14 | it scores 1 |
| TestVectors.FlushNoPairsCategory | __src/testCases.js:15 | 2C 4C 6C 8C TC is a flush |
| TestVectors.FlushNoPairs | __src/testCases.js:15 | it scores 6 |
| TestVectors.FlushNotStraightCategory | __src/testCases.js:16 | 2C 3C 4C 5C 7C is a flush, not a straight flush |
| TestVectors.FlushNotStraight | __src/testCases.js:16 | it scores 6 |
| TestVectors.FiveAces | poker.js:89-102 | AS AS AS AS AS is accepted, passes the single-bit straight test and scores 9 |
| TestVectors.InvalidCard | __src/testCases.js:23 | XX KS QS JS TS scores 0 rather than throwing |
| TestVectors.InvalidCardName | poker.js:269-271 | XX KS QS JS TS is shown as "Invalid Hand" |
| TestVectors.ErrorTests | __src/testCases.js:20-25 | too few or too many cards, a one-character card, a string instead of an array and an array of numbers each throw the matching error |
| Decks.RankMajorDeck | poker.js:33-38 | the ordered deck has 52 cards |
| Decks.RankMajorPushesPrefix | poker.js:33-38 | after n pushes the array is the first n slots of the ordered deck |
| Decks.SuitMajorPushesPrefix | src/dealer.js:71-76 | after n pushes the array is the first n slots of the ordered deck |
| Decks.RankMajorSlotAt | poker.js:34-36 | the push at index 4r+s is `RANKS[r] + SUITS[s]` |
| Decks.SuitMajorSlotAt | src/dealer.js:72-74 | the push at index 13s+r is `RANKS[r] + SUITS[s]` |
| Decks.RankMajorAt | poker.js:33-38 | slot 4r+s of poker.js's deck holds rank r of suit s |
| Decks.SuitMajorAt | src/dealer.js:71-76 | slot 13s+r of src/dealer.js's deck holds rank r of suit s |
| Decks.TokensDistinct | poker.js:36 | tokens of pairwise different cards are pairwise different |
| Decks.RankMajorDistinct | poker.js:33-38 | the 52 tokens of poker.js's deck are pairwise different |
| Decks.SuitMajorDistinct | src/dealer.js:71-76 | the 52 tokens of src/dealer.js's deck are pairwise different |
| Decks.DecksComplete | poker.js:33-38 | every card's token is in both decks |
| Decks.DecksAreTokens | src/dealer.js:71-76 | every slot of either deck is a card's token |
| FisherYates.SwapSlots | poker.js:45 | the destructuring assignment swaps exactly slots i and j |
| FisherYates.Shuffled | poker.js:40-46 | the pass keeps the deck's length |
| FisherYates.ShuffledSnoc | src/dealer.js:83-93 | one more loop step is one more swap of slot n-1-k with the pick |
| FisherYates.SwapMultiset | poker.js:45 | a swap keeps the multiset of cards |
| FisherYates.ShuffledPermutation | poker.js:40-46 | for any legal picks the shuffled deck is a permutation of the ordered one |
| FisherYates.ShuffledElements | src/dealer.js:83-93 | every card of the shuffled deck comes from the ordered deck |
| FisherYates.SwapDistinct | poker.js:45 | a swap keeps the cards pairwise different |
| FisherYates.ShuffledDistinct | poker.js:40-46 | a deck of different cards stays a deck of different cards |
| FisherYates.ShuffledSettled | src/dealer.js:83-92 | after step k the slots from n-k up are final: later steps swap only below `currentIndex` |
| FisherYates.SwapCount | poker.js:44 | the swap counter is at most the number of steps |
| FisherYates.SwapCountZero | poker.js:44 | the counter is 0 exactly when every step picks its own slot |
| FisherYates.SwapCountSnoc | poker.js:44 | a step adds one to the counter exactly when i differs from j |
| PokerDeal.SliceEnd | poker.js:49 | `slice(0, count)` stops at `min(count, 52)` for count >= 0, and counts from the end for count < 0 |
| PokerDeal.Rating | poker.js:48 | the rating is "good" exactly when there are more than 20 swaps, else "poor" |
| PokerDeal.BuildDeck | poker.js:33-38 | the nested push loops build the rank-major ordered deck |
| PokerDeal.ShuffleCountingSwaps | poker.js:40-46 | the countdown loop leaves the array shuffled by the picks, with `swaps` the number of steps with i != j |
| PokerDeal.DealHand | poker.js:32-50 | the hand is the first `slice(0, count)` cards of the shuffled deck; swaps is at most 51; the rating is the rating of the swaps |
| PokerDeal.DealtCards | poker.js:49 | the dealt cards are pairwise different cards of the deck, and there are `count` of them when 0 <= count <= 52 |
| PokerDeal.ShuffledDeckComplete | poker.js:40-46 | after the shuffle each of the 52 cards occurs exactly once |
| PokerDeal.DistinctOnce | poker.js:40-46 | in a deck without repeats every card occurs once |
| PokerDeal.IdentityPassIsPoor | poker.js:42-48 | if every step picks j = i, the deck stays in order and is rated "poor" |
| PokerDeal.IdentityPass | poker.js:42-46 | a pass where every step picks its own slot changes nothing |
| Dealer.Runs | src/dealer.js:14-30 | no runs with fewer than two cards, and at most 2 (len - 1) runs |
| Dealer.RunsSnoc | src/dealer.js:14-30 | the pair i-1, i adds 1 to `runs` for the same suit and 1 more for ranks one apart |
| Dealer.SuitRunsSnoc | src/dealer.js:19-20 | the pair i-1, i adds 1 to `suitRuns[ch]` exactly when both cards have suit character ch |
| Dealer.RunsSplit | src/dealer.js:12-29 | when every suit character is C, D, H or S, the four `suitRuns` entries plus the rank-apart pairs add up to `runs` |
| Dealer.SuitRunsStep | src/dealer.js:19-22 | one loop pass keeps each `suitRuns` entry equal to the same-suit pairs of that suit so far |
| Dealer.RunsOfCards | src/dealer.js:19-27 | for card tokens, a suit run is two cards of one suit and a rank run two cards whose ranks differ by one |
| Dealer.UnknownRankBesideTwo | src/dealer.js:25-27 | a rank character outside `RANKS` (index -1) next to a "2" (index 0) counts as a rank run |
| Dealer.ShuffledTwoChar | src/dealer.js:71-93 | every token of the shuffled deck has two characters and a suit among C, D, H, S |
| Dealer.BuildDeck | src/dealer.js:71-76 | the nested push loops build the suit-major ordered deck |
| Dealer.Shuffle | src/dealer.js:79-93 | the `while` loop runs 52 steps and leaves the array shuffled by the picks |
| Dealer.AnalyzeShuffleQuality | src/dealer.js:8-30 | `runs` is the same-suit pairs plus the rank-apart pairs; `suitRuns` has the keys C, D, H, S, each counting its suit's pairs; the deck is only read |
| Dealer.CreateShuffledDeck | src/dealer.js:69-97 | a fresh array holding the suit-major deck shuffled by the picks, and its runs |
| Dealer.DealHand | src/dealer.js:104-114 | throws "Hand size must be between 1 and 52 cards" exactly when count < 1 or count > 52; otherwise the first count cards of the shuffled deck and that deck's runs |
| Dealer.DealtCards | src/dealer.js:109-113 | a dealt hand has exactly count cards, pairwise different, each a well-formed card token of the deck |
| Dealer.RunsBound | src/dealer.js:12-30 | a shuffled deck has at most 102 runs, and its four `suitRuns` entries add up to at most `runs` |

## Left out

- The browser game: DOM, event handlers, animations, holds and game phases (poker.js:124-343, the DOM code of index.js, js/app.js). It is I/O around the evaluator and the dealers.
- `evaluateAndPrint` and `runTests` of index.js, and `__src/cli.js`: console output only. Their hands are the ones in `TestVectors`.
- `__src/pokerEvaluator.js`: its `evaluatePokerHand` is an empty stub and `formatHand` a lookup wrapper.
- `getCardImagePath`: asset-path formatting for the UI.
- The entropy, scores and Excellent/Good/Fair/Poor rating of `analyzeShuffleQuality` (src/dealer.js:32-62): floating point and `Math.log2`.
- `Math.random`: each call is replaced by an entry of `picks`, restricted to the range the source's expression produces.
- Payouts: there is no payout logic in the source.
- Dealer.AnalyzeShuffleQuality: requires every token to have two characters. The source would read `undefined` from shorter strings, but its only caller passes the 52-card deck.
- Dealer.AnalyzeShuffleQuality: for a same-suit pair whose suit character is not C, D, H or S, the source adds a key holding `NaN` to `suitRuns`. The model leaves the map unchanged, and such a character never occurs in the dealer's deck.
- Dealer.CreateShuffledDeck: the source does not return `suitRuns`, and neither does the model.
- PokerDeal.DealHand: takes an integer `count`. A missing argument is the caller passing 5; fractional, `NaN` or non-numeric counts are not modelled.
- Dealer.DealHand: takes an integer `count`. A fractional count inside 1..52, which `slice` would truncate, is not modelled.
- Evaluator.EvaluatePokerHand: the masks are unbounded naturals. In the source they are 32-bit integers, but with at most 13 bits set no wrap-around or sign change can occur.
- HandRanking.Evaluate: JavaScript values are modelled as strings, arrays and "anything else". String length counts characters, where the source counts UTF-16 code units. They differ on a single character outside the Basic Multilingual Plane, such as "🂡": its JavaScript length is 2, so the source passes the shape check, finds no rank and returns 0, while the model throws `MalformedCard`.
- HandRanking.Evaluate: arrays with holes are not representable. `every` skips a hole, so the source passes the shape check and then throws a TypeError when the loop reads `undefined[0]`, not the "2-character string" error.
- index.js declares `RANKS` as an array of one-character strings, and poker.js as an array too. `indexOf` on them with `card[0]` is modelled as a search in the sequence of characters.
