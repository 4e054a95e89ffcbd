# poker-help, modelled in Dafny

A model of the core of poker-help, a Texas Hold'em assistant. The player
selects two hole cards and up to five board cards and enters the pot, the
amount to call and the stack. The assistant then:

- estimates the player's equity against one random opponent by Monte-Carlo
  playouts;
- names the best five-card hand among the known cards;
- recommends Check, Bet, Call, Raise, All-in or Fold, with a bet or raise
  sizing range where one applies.

The model covers the following files:

- `types.ts`: cards, hand categories, hand results and recommendation
  results (module `Types`).
- `constants.ts`: the suit and rank tables, the rank values and the
  52-card deck (module `Constants`).
- `services/pokerService.ts`:
  - `getCombinations` (module `Combinations`);
  - `evaluateFiveCardHand` (module `HandEvaluator`), which uses a model of
    JavaScript's stable `Array.prototype.sort` (module `StableSort`);
  - `evaluateHand` (module `BestHand`);
  - `calculateWinProbability` (module `EquitySimulator`);
  - `getRecommendation` (module `Recommender`).
- `App.tsx`: the hole-card and board slots, card selection, reset, the
  guard of the Analyze button, and `handleAnalyze` (module `App`, class
  `App.CardSlots`).

`Seqs` holds generic sequence helpers.

The model follows the code exactly, including its surprising behaviour.
Lemmas pin down each of these surprises:

- **Full house is unreachable.** `isFullHouse` is `isThreeOfAKind && isPair`.
  Both read `counts[0]`, so it is never true, and three-plus-two is
  classified Three of a Kind (`HandEvaluator.ThreePlusTwoIsThreeOfAKind`,
  `App.BestHandLabel`).
- **A suited wheel is labelled royal.** The royal test only asks whether the
  highest sorted value is an Ace, so a suited A-5-4-3-2 is a Royal Flush
  (`HandEvaluator.WheelStraightFlushIsRoyal`).
- **Kickers are always empty.** `mainRanks` already holds every rank value
  of the hand (`HandEvaluator.KickersEmpty`).
- **The comparison slots follow JavaScript object key order, not rank.**
  `mainRanks` comes from `Object.entries(rankCounts)`. That lists the
  integer-like keys '2' … '10' ascending, then 'J', 'Q', 'K', 'A' in creation
  order, which is descending on the sorted hand. The stable sort by count
  keeps that order inside each count group. Consequences:
  - K-9-7-4-2 packs to 0x2479D and 8-7-5-4-3 to 0x34578, so the
    eight-high hand wins (`HandEvaluator.EightHighBeatsKingHigh`);
  - the A-5-4-3-2 straight beats the 6-5-4-3-2 straight
    (`HandEvaluator.WheelBeatsSixHighStraight`).

Standard poker ranks three-plus-two as a full house, counts A-5-4-3-2 as
the lowest straight and compares by multiplicity, then rank. On each of
these points the model follows the code.

Two source behaviours are made explicit:

- **Reading past the end of an array.** `counts[k]` and `orderedRanks[k]`
  are `undefined` past the end. That is modelled as 0, which equals no count
  and shifts as 0 (`HandEvaluator.At`).
- **Packing the value.** The source builds the value from shifts and ors.
  The model uses a positional sum, and `HandEvaluator.PackBitsIsSum` proves
  that the two agree on 32-bit vectors whenever every field is below 16.

The random shuffle is an input. Each playout receives its own ordering of
the remaining deck: any sequence with the same multiset of cards.
Amounts are exact reals.

## Model

| member | source | states |
|---|---|---|
| `Types.Ordinal` | types.ts:14-25 | the enum value of a category is at most 9, 0 exactly for HIGH_CARD and 9 exactly for ROYAL_FLUSH |
| `Types.OrdinalInjective` | types.ts:14-25 | distinct categories have distinct enum values |
| `Constants.RankValue` | constants.ts:107-109 | every rank value lies in 2 … 14 (so it fits a 4-bit slot); 11, 12, 13 and 14 are exactly J, Q, K and A |
| `Constants.RankValueInjective` | constants.ts:107-109 | two ranks have the same value exactly when they are the same rank |
| `Constants.RanksDescending` | constants.ts:105 | RANKS holds all 13 ranks, position i having value 14 - i, strictly decreasing |
| `Constants.FlatMapRowsIndex` | constants.ts:111-113 | position i of the flat-mapped deck holds suit i / 13 and rank i % 13 |
| `Constants.FullDeckLayout` | constants.ts:104-113 | FULL_DECK has 52 cards, suit-major in SUITS order, each suit A down to 2 |
| `Constants.FullDeckComplete` | constants.ts:104-113 | FULL_DECK contains every (suit, rank) card exactly once |
| `StableSort.SortDescBy` | services/pokerService.ts:27 | the comparator sort `(a, b) => key(b) - key(a)` returns a permutation of its input in non-increasing key order |
| `StableSort.SortLex` | services/pokerService.ts:49 | the sort is stable: equal keys keep their input order |
| `StableSort.SortSortedIdentity` | services/pokerService.ts:27 | an input already in descending key order comes back unchanged |
| `StableSort.SortedDescUnique` | services/pokerService.ts:38 | the descending order of a multiset of numbers is unique, so `counts` is determined by the multiset of counts |
| `Combinations.Combos` | services/pokerService.ts:5-24 | no combinations for k <= 0 or k > length |
| `Combinations.GetCombinations` | services/pokerService.ts:5-24 | the loop-and-recursion returns exactly the recursive definition |
| `Combinations.CombosCount` | services/pokerService.ts:5-24 | for k >= 1 the number of combinations is the binomial coefficient C(n, k) |
| `Combinations.HeadsBelowCount` | services/pokerService.ts:16-22 | after head positions 0 … i-1 the loop has pushed C(n, k) - C(n-i, k) lists |
| `Combinations.CombosSound` | services/pokerService.ts:5-24 | every combination has length k and is an order-preserving sub-list of the array |
| `Combinations.CombosComplete` | services/pokerService.ts:5-24 | every order-preserving sub-list of length k, 1 <= k <= n, is returned |
| `Combinations.CombosNoDup` | services/pokerService.ts:5-24 | on an array without duplicates no combination is returned twice |
| `HandEvaluator.InsertionOrder` | services/pokerService.ts:33-36 | the keys the `reduce` creates are the hand's ranks, each once |
| `HandEvaluator.ObjectKeyOrder` | services/pokerService.ts:38 | the enumeration order of `rankCounts` lists exactly the keys created |
| `HandEvaluator.ObjectKeyOrderSorted` | services/pokerService.ts:49 | `Object.entries(rankCounts)` lists '2' … '10' ascending, then the face keys and the Ace in creation order |
| `HandEvaluator.InsertionOrderDescending` | services/pokerService.ts:27-36 | on the sorted hand the keys are created in strictly descending value |
| `HandEvaluator.CountKeysSpec` | services/pokerService.ts:33-38 | the keys of `rankCounts`: each rank of the hand once, in object key order |
| `HandEvaluator.MainKeysSpec` | services/pokerService.ts:49 | the sorted entries: each rank once, by descending count, ties in object key order |
| `HandEvaluator.KickersEmpty` | services/pokerService.ts:50 | `kickers` is always empty |
| `HandEvaluator.OrderedRanksSpec` | services/pokerService.ts:49-51 | `orderedRanks` holds each rank value of the hand once, higher multiplicity first, ties in object key order |
| `HandEvaluator.OrderedRanksDetermined` | services/pokerService.ts:49-51 | any duplicate-free list of the hand's values in that order is `orderedRanks` |
| `HandEvaluator.OrderedRanksBounded` | services/pokerService.ts:49-53 | every ordered rank lies in 2 … 14, so it fits a 4-bit slot |
| `HandEvaluator.OrderedRanksLength` | services/pokerService.ts:49-53 | five distinct cards give between 2 and 5 slots, one per distinct rank |
| `HandEvaluator.Classify` | services/pokerService.ts:39-43 | the test chain never yields a full house; royal needs a straight, a flush and a top value of 14 |
| `HandEvaluator.PackValueRange` | services/pokerService.ts:53 | with slots below 16 the value lies in its category's band of 2^20 |
| `HandEvaluator.PackBitsIsSum` | services/pokerService.ts:53 | the shift-and-or expression equals the positional sum when every field is below 16 |
| `HandEvaluator.EvaluateFiveCardHand` | services/pokerService.ts:26-68 | never FULL_HOUSE; the value lies in the band of its category |
| `HandEvaluator.CategoryDominates` | services/pokerService.ts:53-67 | a higher category always yields a strictly larger value, whatever the ranks |
| `HandEvaluator.FlushAgreement` | services/pokerService.ts:30-32 | `new Set(suits).size === 1` on the sorted hand holds exactly when all five cards share a suit |
| `HandEvaluator.StraightAgreement` | services/pokerService.ts:45-47 | the straight test on the sorted values holds exactly for five consecutive values or A-5-4-3-2 |
| `HandEvaluator.TopAgreement` | services/pokerService.ts:56 | `rankValues[0] === 14` holds exactly when the hand has an Ace |
| `HandEvaluator.CountsTopAgreement` | services/pokerService.ts:38-41 | `counts[0] === k` holds exactly when k is the largest multiplicity of a rank |
| `HandEvaluator.CountsSecondAgreement` | services/pokerService.ts:42 | with `counts[0] === 2`, `counts[1] === 2` holds exactly when two ranks are paired |
| `HandEvaluator.ClassifyMatchesReference` | services/pokerService.ts:55-67 | the category equals an independent definition on the unsorted hand: straight and flush (royal if it holds an Ace), four, flush, straight, three, two pair, pair, high card |
| `HandEvaluator.ThreePlusTwoIsThreeOfAKind` | services/pokerService.ts:43 | three cards of one rank and two of another are classified Three of a Kind |
| `HandEvaluator.WheelStraightFlushIsRoyal` | services/pokerService.ts:55-57 | a suited A-5-4-3-2 is labelled Royal Flush |
| `HandEvaluator.PairedNotFlush` | services/pokerService.ts:32 | distinct cards with a paired rank are never a flush |
| `HandEvaluator.PairedNotStraight` | services/pokerService.ts:45-47 | a hand with a paired rank is never a straight |
| `HandEvaluator.UnpairedHighCard` | services/pokerService.ts:67 | five distinct values of mixed suits that are no straight are a high card |
| `HandEvaluator.UnpairedStraight` | services/pokerService.ts:62 | five distinct values of mixed suits forming a straight are a straight |
| `HandEvaluator.SingletonSlots` | services/pokerService.ts:49-51 | with distinct values, the slots are the values in object key order |
| `HandEvaluator.PackedFromSlots` | services/pokerService.ts:53 | with distinct values, the value packs those slots under the category |
| `HandEvaluator.KingHighValue` | services/pokerService.ts:26-68 | K-9-7-4-2 of mixed suits evaluates to HIGH_CARD with value 0x2479D |
| `HandEvaluator.EightHighValue` | services/pokerService.ts:26-68 | 8-7-5-4-3 of mixed suits evaluates to HIGH_CARD with value 0x34578 |
| `HandEvaluator.WheelValue` | services/pokerService.ts:26-68 | A-5-4-3-2 of mixed suits evaluates to STRAIGHT with value 0x42345E |
| `HandEvaluator.SixHighStraightValue` | services/pokerService.ts:26-68 | 6-5-4-3-2 of mixed suits evaluates to STRAIGHT with value 0x423456 |
| `HandEvaluator.EightHighBeatsKingHigh` | services/pokerService.ts:49-53 | by value, 8-7-5-4-3 beats K-9-7-4-2 |
| `HandEvaluator.WheelBeatsSixHighStraight` | services/pokerService.ts:45-53 | by value, the A-5-4-3-2 straight beats the 6-5-4-3-2 straight |
| `BestHand.BestOf` | services/pokerService.ts:72-80 | no visited result has a larger value than the kept one |
| `BestHand.BestOfFirst` | services/pokerService.ts:76-78 | the kept result is one of the results: the first of largest value, since only a strictly larger value replaces it |
| `BestHand.Keep` | services/pokerService.ts:76-78 | one loop step keeps the current or the old result, and the kept value is at least both |
| `BestHand.EvaluateHand` | services/pokerService.ts:70-81 | the method returns the best of the evaluations of all five-card combinations |
| `BestHand.ScanCombinations` | services/pokerService.ts:74-80 | the loop returns the first result of largest value |
| `BestHand.BestHandAchieved` | services/pokerService.ts:70-81 | the best hand is the evaluation of some five-card sub-list of the cards |
| `BestHand.BestHandIsBest` | services/pokerService.ts:70-81 | no five-card sub-list evaluates to a larger value |
| `BestHand.BestHandCategory` | services/pokerService.ts:70-81 | no five-card sub-list has a stronger category |
| `BestHand.BestHandOfFive` | services/pokerService.ts:70-81 | for exactly five cards the result is their own evaluation |
| `EquitySimulator.RemainingDeck` | services/pokerService.ts:89-92 | the deck holds exactly the cards not known, once each, in FULL_DECK order |
| `EquitySimulator.RemainingDeckSize` | services/pokerService.ts:89-92 | at least 52 - known cards remain, exactly that many when the known cards are distinct |
| `EquitySimulator.NoFallbackForSevenKnown` | services/pokerService.ts:94-97 | with at most two hole cards and five board cards the 50 fallback is never taken |
| `EquitySimulator.OpponentCards` | services/pokerService.ts:102 | the opponent gets two cards |
| `EquitySimulator.FinalTable` | services/pokerService.ts:103-106 | the final board has five cards and starts with the known board |
| `EquitySimulator.DealtCardsDistinct` | services/pokerService.ts:100-108 | dealt cards are distinct and not known, so both seven-card hands are free of duplicates |
| `EquitySimulator.Showdown` | services/pokerService.ts:113-117 | 1 exactly for a larger value, 0 exactly for a smaller one, ½ exactly for a split pot |
| `EquitySimulator.ShowdownComplementary` | services/pokerService.ts:113-117 | the two seats' scores always add to 1 |
| `EquitySimulator.PlayoutScore` | services/pokerService.ts:100-117 | one playout scores between 0 and 1 |
| `EquitySimulator.SumBounds` | services/pokerService.ts:113-117 | scores between 0 and 1 sum to between 0 and their number; all 1 sum to the number, all 0 to 0 |
| `EquitySimulator.Wins` | services/pokerService.ts:88-118 | `wins` lies between 0 and the number of playouts |
| `EquitySimulator.Percentage` | services/pokerService.ts:120 | the result lies in [0, 100]: 100 when every playout is won, 0 when none is |
| `EquitySimulator.WinProbability` | services/pokerService.ts:83-121 | 50 when the remaining deck cannot complete a playout; always within [0, 100] |
| `EquitySimulator.AllWonIsHundred` | services/pokerService.ts:113-120 | winning every playout gives 100 |
| `EquitySimulator.AllLostIsZero` | services/pokerService.ts:113-120 | losing every playout gives 0 |
| `EquitySimulator.CalculateWinProbability` | services/pokerService.ts:83-121 | the method returns 50 on the fallback and otherwise the percentage of the playout scores |
| `EquitySimulator.Simulate` | services/pokerService.ts:99-120 | the playouts and the division return the percentage of the summed scores |
| `EquitySimulator.Tally` | services/pokerService.ts:99-118 | the loop accumulates exactly the sum of the playout scores |
| `EquitySimulator.Playout` | services/pokerService.ts:100-117 | one iteration scores exactly the playout of its shuffle |
| `Recommender.Min` | services/pokerService.ts:136-137 | `Math.min` is one of its arguments and at most both |
| `Recommender.Floor` | services/pokerService.ts:130-131 | `Math.floor(x)` is the integer f with f <= x < f + 1 |
| `Recommender.EffectiveStack` | services/pokerService.ts:124 | the effective stack is the stack when positive, else 0 |
| `Recommender.GetRecommendation` | services/pokerService.ts:123-188 | amounts exactly for Bet and Raise; Check exactly when nothing is to be called and no bet is offered, Bet exactly for a win probability over 60 with a positive pot and stack; All-in or Fold by the pot odds when the call covers the stack; over 70 with a smaller call, Raise exactly when the stack covers 2.5 times the call and All-in otherwise; All-in, Call and Fold each by an if-and-only-if over the branch conditions; raise sizing within the stack |
| `Recommender.StrongerHandKeepsPlaying` | services/pokerService.ts:145-184 | a higher win probability never turns a Call, Raise or All-in into a Check or Fold |
| `Recommender.ExampleBet` | services/pokerService.ts:127-139 | 80% into a pot of 100 with nothing to call: Bet 50 to 100 |
| `Recommender.ExampleCall` | services/pokerService.ts:182-184 | 30% against 50 into 100: required equity 25, so Call |
| `Recommender.ExampleAllIn` | services/pokerService.ts:159-172 | 90% against 40 with a stack of 90: the minimum raise of 100 exceeds the stack, so All-in |
| `Recommender.ExampleFold` | services/pokerService.ts:150-155 | 10% against 500 with a stack of 200: required equity about 45, so Fold |
| `App.Filled` | App.tsx:29 | `filter(Boolean)` keeps exactly the selected cards, at most one per slot |
| `App.FilledNoDup` | App.tsx:29 | slots without a repeated card give a duplicate-free card list |
| `App.FilledAppend` | App.tsx:29 | filtering the joined slot arrays is joining the filtered arrays |
| `App.IndexOfEmpty` | App.tsx:39 | `indexOf(null)` is -1 exactly when no slot is empty, else the first empty slot |
| `App.ClearCard` | App.tsx:33-34 | the card leaves every slot; other slots are kept; cleared slots become empty |
| `App.SelectKeepsValid` | App.tsx:31-52 | every selection keeps two hole slots, five board slots and no card twice |
| `App.SelectToggles` | App.tsx:32-35 | selecting a selected card deselects it and keeps every other selection |
| `App.SelectPlaces` | App.tsx:38-51 | an unselected card goes into the first empty hole slot, else the first empty board slot, else nothing changes |
| `App.EmptySlots` | App.tsx:19-20 | the initial slots are valid and hold no card |
| `App.BestHandLabel` | App.tsx:88-93 | with fewer than five known cards High Card; otherwise the category of the best hand of those cards, never Full House |
| `App.AnalysisOf` | App.tsx:65-106 | the error exactly when the hole slots do not hold two cards; otherwise a probability in [0, 100] |
| `App.AnalysisInputsSound` | App.tsx:66-80 | with two hole cards the known cards are distinct and at most seven, so the simulation never falls back to 50 |
| `App.CardSlots.constructor` | App.tsx:19-20 | the state starts with all seven slots empty |
| `App.CardSlots.AllSelectedCards` | App.tsx:29 | a card is listed exactly when a hole or board slot holds it |
| `App.SelectedDistinct` | App.tsx:29 | with valid slots no card is listed twice and at most seven are listed |
| `App.CardSlots.HandleCardSelect` | App.tsx:31-52 | the new slots are `Select` of the old ones, and the slots stay valid |
| `App.CardSlots.HandleReset` | App.tsx:54-56 | all seven slots are empty again |
| `App.CardSlots.AnalyzeGuard` | App.tsx:65-70 | an enabled button (App.tsx:113) leads to an analysis; a disabled one with no analysis running leads to the two-cards error |
| `App.CardSlots.HandleAnalyze` | App.tsx:65-106 | the outcome is the analysis of the current slots |

## Left out

- The random shuffle (`sort(() => Math.random() - 0.5)`) is not modelled. Each playout's ordering of the remaining deck is an input, and any permutation is admitted, so neither the bias of that shuffle nor its distribution is captured.
- IEEE-754 floating point is not modelled: amounts and probabilities are exact reals, so rounding in `(wins / numSimulations) * 100` and in the pot-odds quotient is not captured. The infinity from a zero divisor in `requiredEquity` is modelled by its sign in `Recommender.BeatsPotOdds`; `NaN` amounts are not.
- `parseFloat(x) || 0` in `handleAnalyze` is not modelled: the three amounts arrive already parsed.
- The `async`/`await` flow, the 50 ms `setTimeout` yield, the `try`/`catch` with `console.error`, and the `isLoading`, `error` and `result` state fields are not modelled. `App.CardSlots.HandleAnalyze` returns the result or the error instead of setting them.
- `handleReset` also clears the amount inputs, the result, the error and the loading flag; only the slots are modelled.
- The UI is not modelled: the components, the translations, the language toggle and the hand-name strings. A hand name is its `HandRank`.
- `calculateWinProbability` is modelled only for `numSimulations > 0` (the caller always uses the default 2000) and a board of at most five cards. With more than five board cards the source's negative slice length is not modelled.
- `evaluateHand` with fewer than five cards (the source returns `null` via `bestHand!`) is not modelled: `BestHand.EvaluateHand` requires five cards, as `handleAnalyze` checks before calling it.
- `getCombinations` is generic; the model proves its properties for any element type, and only `k = 5` is used.
- `App.CardSlots.HandleAnalyze` requires that the shuffles be orderings of the remaining deck: the model cannot produce random permutations itself.
