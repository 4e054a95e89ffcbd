/** `evaluateFiveCardHand` and `evaluateHand`: classify five cards into a
    category with a packed comparison value, and pick the best five-card
    subset of a larger hand. */
module HandEvaluator {
  import opened Types
  import opened Constants
  import opened Seqs
  import opened StableSort
  import opened Combinations

  function CardValue(c: Card): int { RankValue(c.rank) }
  function RankOf(c: Card): Rank { c.rank }
  function SuitOf(c: Card): Suit { c.suit }

  /** Reading position `i` of a JavaScript array: past the end the element is
      `undefined`, which shifts as 0 and is strictly equal to no count, so
      0 stands for it here. */
  function At(s: seq<int>, i: nat): int {
    if i < |s| then s[i] else 0
  }

  // ---------------------------------------------------------------------
  // The steps of evaluateFiveCardHand
  // ---------------------------------------------------------------------

  /** `[...hand].sort((a, b) => RANK_VALUES[b.rank] - RANK_VALUES[a.rank])`. */
  function SortedHand(hand: seq<Card>): seq<Card> {
    SortDescBy(hand, CardValue)
  }

  /** `rankValues`: the hand's rank values, highest first. */
  function SortedValues(hand: seq<Card>): seq<int> {
    Map(SortedHand(hand), CardValue)
  }

  /** `ranks`: the hand's ranks, highest first. */
  function SortedRanks(hand: seq<Card>): seq<Rank> {
    Map(SortedHand(hand), RankOf)
  }

  /** `new Set(suits).size === 1`. */
  function AllSameSuit(suits: seq<Suit>): bool {
    |suits| > 0 && forall i :: 0 <= i < |suits| ==> suits[i] == suits[0]
  }

  /** The order in which the `reduce` creates the keys of `rankCounts`: each
      rank at its first occurrence. */
  function InsertionOrder(ranks: seq<Rank>): (keys: seq<Rank>)
    ensures NoDup(keys)
    ensures forall r :: r in keys <==> r in ranks
    ensures |keys| <= |ranks|
  {
    if ranks == [] then []
    else
      var keys := InsertionOrder(ranks[..|ranks| - 1]);
      var last := ranks[|ranks| - 1];
      assert ranks == ranks[..|ranks| - 1] + [last];
      if last in keys then keys
      else
        NoDupConcat(keys, [last]);
        keys + [last]
  }

  /** Keys '2' … '10' are integer-like property names of a JavaScript object;
      'J', 'Q', 'K', 'A' are not. */
  predicate IsIntegerKey(r: Rank) { RankValue(r) <= 10 }
  predicate IsStringKey(r: Rank) { !IsIntegerKey(r) }

  /** The integer-like keys in ascending numeric order. */
  const INTEGER_KEYS: seq<Rank> := [Two, Three, Four, Five, Six, Seven, Eight, Nine, Ten]

  function PresentIn(keys: seq<Rank>): Rank -> bool {
    r => r in keys
  }

  /** The key order of `Object.entries` / `Object.values` on `rankCounts`:
      integer-like keys first in ascending numeric order, then the other keys
      in the order they were created. */
  function ObjectKeyOrder(insertion: seq<Rank>): (keys: seq<Rank>)
    ensures forall r :: r in keys <==> r in insertion
  {
    IntegerKeysCovered(insertion);
    Filter(INTEGER_KEYS, PresentIn(insertion)) + Filter(insertion, IsStringKey)
  }

  /** Every integer-like key present is among the integer keys kept. */
  lemma {:induction false} IntegerKeysCovered(insertion: seq<Rank>)
    ensures forall r :: r in insertion && IsIntegerKey(r) ==> r in Filter(INTEGER_KEYS, PresentIn(insertion))
  {
    IntegerKeysAscending();
    forall r | r in insertion && IsIntegerKey(r) ensures r in Filter(INTEGER_KEYS, PresentIn(insertion)) {
      var k := RankValue(r) - 2;
      RankValueInjective(INTEGER_KEYS[k], r);
      assert PresentIn(insertion)(INTEGER_KEYS[k]);
    }
  }

  /** `rankCounts[r]`: how many of the sorted ranks equal `r`. */
  function RankCount(ranks: seq<Rank>): Rank -> int {
    r => multiset(ranks)[r]
  }

  /** The keys of `rankCounts` in the order `Object.entries` lists them. */
  function CountKeys(ranks: seq<Rank>): seq<Rank> {
    ObjectKeyOrder(InsertionOrder(ranks))
  }

  /** `counts = Object.values(rankCounts).sort((a, b) => b - a)`. */
  function Counts(ranks: seq<Rank>): seq<int> {
    SortDescBy(Map(CountKeys(ranks), RankCount(ranks)), Id)
  }

  /** The entries of `rankCounts` stably sorted by descending count. */
  function MainKeys(ranks: seq<Rank>): seq<Rank> {
    SortDescBy(CountKeys(ranks), RankCount(ranks))
  }

  /** `mainRanks`: the rank values of `MainKeys`. */
  function MainRanks(ranks: seq<Rank>): seq<int> {
    Map(MainKeys(ranks), RankValue)
  }

  function NotIn(vs: seq<int>): int -> bool {
    v => v !in vs
  }

  /** `kickers = rankValues.filter(v => !mainRanks.includes(v)).sort((a, b) => b - a)`. */
  function Kickers(rankValues: seq<int>, mainRanks: seq<int>): seq<int> {
    SortDescBy(Filter(rankValues, NotIn(mainRanks)), Id)
  }

  /** `orderedRanks = [...mainRanks, ...kickers]`. */
  function OrderedRanks(hand: seq<Card>): seq<int> {
    var ranks := SortedRanks(hand);
    MainRanks(ranks) + Kickers(SortedValues(hand), MainRanks(ranks))
  }

  /** `isStraight`: each value is one below the previous. */
  function IsDescendingRun(rankValues: seq<int>): bool {
    forall i :: 1 <= i < |rankValues| ==> rankValues[i] == rankValues[i - 1] - 1
  }

  /** The A-5-4-3-2 pattern `isAceLowStraight` compares against. */
  const ACE_LOW: seq<int> := [14, 5, 4, 3, 2]

  /** The category test chain. `isFullHouse` is `isThreeOfAKind && isPair`,
      both read from `counts[0]`, so it is never true. */
  function Classify(finalIsStraight: bool, isFlush: bool, topValue: int, counts: seq<int>): (category: HandRank)
    ensures category != FullHouse
    ensures category == RoyalFlush ==> finalIsStraight && isFlush && topValue == 14
  {
    var isFourOfAKind := At(counts, 0) == 4;
    var isThreeOfAKind := At(counts, 0) == 3;
    var isPair := At(counts, 0) == 2;
    var isTwoPair := isPair && At(counts, 1) == 2;
    var isFullHouse := isThreeOfAKind && isPair;
    if finalIsStraight && isFlush then
      (if topValue == 14 then RoyalFlush else StraightFlush)
    else if isFourOfAKind then FourOfAKind
    else if isFullHouse then FullHouse
    else if isFlush then Flush
    else if finalIsStraight then Straight
    else if isThreeOfAKind then ThreeOfAKind
    else if isTwoPair then TwoPair
    else if isPair then OnePair
    else HighCard
  }

  /** `value(rank)`: the category in bits 20 and up, then the first five
      ordered ranks in four-bit slots, most significant first. */
  function PackValue(category: HandRank, ordered: seq<int>): int {
    Ordinal(category) * 0x10_0000 + At(ordered, 0) * 0x1_0000 + At(ordered, 1) * 0x1000
      + At(ordered, 2) * 0x100 + At(ordered, 3) * 0x10 + At(ordered, 4)
  }

  /** With every slot below 16 the category alone decides the range of the value. */
  lemma {:induction false} PackValueRange(category: HandRank, ordered: seq<int>)
    requires forall i :: 0 <= i < |ordered| ==> 0 <= ordered[i] < 16
    ensures Ordinal(category) * 0x10_0000 <= PackValue(category, ordered) < (Ordinal(category) + 1) * 0x10_0000
  {
    assert 0 <= At(ordered, 0) < 16 && 0 <= At(ordered, 1) < 16 && 0 <= At(ordered, 2) < 16;
    assert 0 <= At(ordered, 3) < 16 && 0 <= At(ordered, 4) < 16;
  }

  /** The source's `(rank << 20) | (o0 << 16) | (o1 << 12) | (o2 << 8) | (o3 << 4) | o4`
      equals the positional sum `PackValue` uses whenever every field is below
      16 (the fields then occupy disjoint bits). */
  lemma {:induction false} PackBitsIsSum(c: bv32, s0: bv32, s1: bv32, s2: bv32, s3: bv32, s4: bv32)
    requires c < 16 && s0 < 16 && s1 < 16 && s2 < 16 && s3 < 16 && s4 < 16
    ensures (c << 20) | (s0 << 16) | (s1 << 12) | (s2 << 8) | (s3 << 4) | s4
      == c * 0x10_0000 + s0 * 0x1_0000 + s1 * 0x1000 + s2 * 0x100 + s3 * 0x10 + s4
  {
  }

  /** `evaluateFiveCardHand`. The value lies in the band of its category, so
      a higher category always carries a larger value. */
  function EvaluateFiveCardHand(hand: seq<Card>): (result: HandResult)
    requires |hand| == 5
    ensures result.rank != FullHouse
    ensures Ordinal(result.rank) * 0x10_0000 <= result.value < (Ordinal(result.rank) + 1) * 0x10_0000
  {
    var sortedHand := SortedHand(hand);
    var rankValues := SortedValues(hand);
    var suits := Map(sortedHand, SuitOf);
    var isFlush := AllSameSuit(suits);
    var counts := Counts(SortedRanks(hand));
    var finalIsStraight := IsDescendingRun(rankValues) || rankValues == ACE_LOW;
    var orderedRanks := OrderedRanks(hand);
    var category := Classify(finalIsStraight, isFlush, rankValues[0], counts);
    OrderedRanksBounded(hand);
    PackValueRange(category, orderedRanks);
    HandResult(category, PackValue(category, orderedRanks))
  }

  /** Every element is a rank value. */
  predicate AllRankValues(s: seq<int>) {
    forall i :: 0 <= i < |s| ==> 2 <= s[i] <= 14
  }

  /** Every kicker is one of the rank values it was filtered from. */
  lemma {:induction false} KickersFrom(rankValues: seq<int>, mainRanks: seq<int>)
    ensures forall i :: 0 <= i < |Kickers(rankValues, mainRanks)| ==>
      Kickers(rankValues, mainRanks)[i] in rankValues && Kickers(rankValues, mainRanks)[i] !in mainRanks
  {
    var filtered := Filter(rankValues, NotIn(mainRanks));
    var kick := Kickers(rankValues, mainRanks);
    forall i | 0 <= i < |kick| ensures kick[i] in rankValues && kick[i] !in mainRanks {
      assert kick[i] in multiset(filtered);
      var k :| 0 <= k < |filtered| && filtered[k] == kick[i];
    }
  }

  lemma {:induction false} KickersBounded(rankValues: seq<int>, mainRanks: seq<int>)
    requires AllRankValues(rankValues)
    ensures AllRankValues(Kickers(rankValues, mainRanks))
  {
    KickersFrom(rankValues, mainRanks);
  }

  lemma {:induction false} ConcatBounded(a: seq<int>, b: seq<int>)
    requires AllRankValues(a) && AllRankValues(b)
    ensures AllRankValues(a + b)
  {
  }

  /** Every ordered rank is a rank value, so it fits one 4-bit slot. */
  lemma {:induction false} OrderedRanksBounded(hand: seq<Card>)
    ensures AllRankValues(OrderedRanks(hand))
  {
    var main := MainRanks(SortedRanks(hand));
    var values := SortedValues(hand);
    assert AllRankValues(values);
    assert AllRankValues(main);
    KickersBounded(values, main);
    ConcatBounded(main, Kickers(values, main));
  }

  /** A higher category always yields a strictly larger value, whatever the
      ranks of the two hands. */
  lemma {:induction false} CategoryDominates(h1: seq<Card>, h2: seq<Card>)
    requires |h1| == 5 && |h2| == 5
    requires Ordinal(EvaluateFiveCardHand(h1).rank) > Ordinal(EvaluateFiveCardHand(h2).rank)
    ensures EvaluateFiveCardHand(h1).value > EvaluateFiveCardHand(h2).value
  {
  }

  // ---------------------------------------------------------------------
  // orderedRanks: which ranks, and in which order
  // ---------------------------------------------------------------------

  /** How many cards of the hand have rank value `v`. */
  function ValueMult(hand: seq<Card>, v: int): nat {
    multiset(Map(hand, CardValue))[v]
  }

  /** How many cards of the hand have rank `r`. */
  function RankMult(hand: seq<Card>, r: Rank): nat {
    multiset(Map(hand, RankOf))[r]
  }

  /** The order in which `Object.entries` lists two rank keys, on their
      values: integer-like keys ('2' … '10') ascending before the others,
      which follow descending (their creation order on a sorted hand). */
  predicate ValueKeyBefore(a: int, b: int) {
    (a <= 10 && (b > 10 || a < b)) || (a > 10 && b > 10 && a > b)
  }

  predicate KeyBefore(a: Rank, b: Rank) {
    ValueKeyBefore(RankValue(a), RankValue(b))
  }

  predicate HigherRank(a: Rank, b: Rank) { RankValue(a) > RankValue(b) }
  predicate LowerRank(a: Rank, b: Rank) { RankValue(a) < RankValue(b) }

  /** A rank and its value occur equally often. */
  lemma {:induction false} MultByValue(hand: seq<Card>, r: Rank)
    ensures RankMult(hand, r) == ValueMult(hand, RankValue(r))
  {
    if hand != [] {
      MultByValue(hand[1..], r);
      assert hand == [hand[0]] + hand[1..];
      MapAppend([hand[0]], hand[1..], RankOf);
      MapAppend([hand[0]], hand[1..], CardValue);
      RankValueInjective(hand[0].rank, r);
    }
  }

  /** Sorting the hand keeps every rank count. */
  lemma {:induction false} SortedRankCount(hand: seq<Card>, r: Rank)
    ensures RankCount(SortedRanks(hand))(r) == RankMult(hand, r)
  {
    MapMultiset(SortedHand(hand), hand, RankOf);
  }

  lemma {:induction false} SortedValuesPermutation(hand: seq<Card>)
    ensures multiset(SortedValues(hand)) == multiset(Map(hand, CardValue))
  {
    MapMultiset(SortedHand(hand), hand, CardValue);
  }

  /** The sorted ranks are in descending value. */
  lemma {:induction false} SortedRanksDescending(hand: seq<Card>)
    ensures SortedDescBy(SortedRanks(hand), RankValue)
  {
    var sorted := SortedHand(hand);
    var ranks := SortedRanks(hand);
    forall i, j | 0 <= i < j < |ranks| ensures RankValue(ranks[i]) >= RankValue(ranks[j]) {
      assert ranks[i] == sorted[i].rank && ranks[j] == sorted[j].rank;
      assert CardValue(sorted[i]) >= CardValue(sorted[j]);
    }
  }

  /** On ranks sorted by descending value the keys are created in strictly
      descending value. */
  lemma {:induction false} InsertionOrderDescending(ranks: seq<Rank>)
    requires SortedDescBy(ranks, RankValue)
    ensures PairwiseBy(InsertionOrder(ranks), HigherRank)
  {
    if ranks != [] {
      var init := ranks[..|ranks| - 1];
      var last := ranks[|ranks| - 1];
      assert SortedDescBy(init, RankValue) by {
        forall i, j | 0 <= i < j < |init| ensures RankValue(init[i]) >= RankValue(init[j]) {
          assert init[i] == ranks[i] && init[j] == ranks[j];
        }
      }
      InsertionOrderDescending(init);
      var keys := InsertionOrder(init);
      if last !in keys {
        var r := keys + [last];
        forall i, j | 0 <= i < j < |r| ensures HigherRank(r[i], r[j]) {
          if j == |keys| {
            assert r[i] in init;
            var k :| 0 <= k < |init| && init[k] == r[i];
            assert RankValue(ranks[k]) >= RankValue(last);
            RankValueInjective(r[i], last);
          } else {
            assert r[i] == keys[i] && r[j] == keys[j];
          }
        }
      }
    }
  }

  /** `KeyBefore` is irreflexive, so a sequence ordered by it has no repeats. */
  lemma {:induction false} KeyOrderNoDup(s: seq<Rank>)
    requires PairwiseBy(s, KeyBefore)
    ensures NoDup(s)
  {
    forall i, j | 0 <= i < j < |s| ensures s[i] != s[j] {
      assert KeyBefore(s[i], s[j]);
    }
  }

  lemma {:induction false} PairwiseConcat(a: seq<Rank>, b: seq<Rank>)
    requires PairwiseBy(a, KeyBefore) && PairwiseBy(b, KeyBefore)
    requires forall x, y :: x in a && y in b ==> KeyBefore(x, y)
    ensures PairwiseBy(a + b, KeyBefore)
  {
    var keys := a + b;
    forall i, j | 0 <= i < j < |keys| ensures KeyBefore(keys[i], keys[j]) {
      if j < |a| {
        assert keys[i] == a[i] && keys[j] == a[j];
      } else if i < |a| {
        assert keys[i] in a && keys[j] in b;
      } else {
        assert keys[i] == b[i - |a|] && keys[j] == b[j - |a|];
      }
    }
  }

  /** The integer-like keys present, ascending. */
  lemma {:induction false} NumericKeysSorted(insertion: seq<Rank>)
    ensures PairwiseBy(Filter(INTEGER_KEYS, PresentIn(insertion)), KeyBefore)
    ensures forall x :: x in Filter(INTEGER_KEYS, PresentIn(insertion)) ==> IsIntegerKey(x)
  {
    var numeric := Filter(INTEGER_KEYS, PresentIn(insertion));
    IntegerKeysAscending();
    FilterPairwise(INTEGER_KEYS, PresentIn(insertion), LowerRank);
    forall x | x in numeric ensures IsIntegerKey(x) {
      var k :| 0 <= k < |numeric| && numeric[k] == x;
      assert x in INTEGER_KEYS;
    }
    forall i, j | 0 <= i < j < |numeric| ensures KeyBefore(numeric[i], numeric[j]) {
      assert IsIntegerKey(numeric[i]) && LowerRank(numeric[i], numeric[j]);
    }
  }

  /** `INTEGER_KEYS` holds the values 2 … 10 in ascending order. */
  lemma {:induction false} IntegerKeysAscending()
    ensures forall i :: 0 <= i < |INTEGER_KEYS| ==> RankValue(INTEGER_KEYS[i]) == i + 2
    ensures PairwiseBy(INTEGER_KEYS, LowerRank)
    ensures forall x :: x in INTEGER_KEYS ==> IsIntegerKey(x)
  {
    assert forall i :: 0 <= i < |INTEGER_KEYS| ==> RankValue(INTEGER_KEYS[i]) == i + 2;
  }

  /** The other keys, in creation order, which is descending. */
  lemma {:induction false} NamedKeysSorted(insertion: seq<Rank>)
    requires PairwiseBy(insertion, HigherRank)
    ensures PairwiseBy(Filter(insertion, IsStringKey), KeyBefore)
    ensures forall x :: x in Filter(insertion, IsStringKey) ==> IsStringKey(x)
  {
    var named := Filter(insertion, IsStringKey);
    FilterPairwise(insertion, IsStringKey, HigherRank);
    forall x | x in named ensures IsStringKey(x) {
      var k :| 0 <= k < |named| && named[k] == x;
    }
    forall i, j | 0 <= i < j < |named| ensures KeyBefore(named[i], named[j]) {
      assert IsStringKey(named[i]) && IsStringKey(named[j]) && HigherRank(named[i], named[j]);
    }
  }

  /** `Object.entries(rankCounts)` lists its keys in `KeyBefore` order. */
  lemma {:induction false} ObjectKeyOrderSorted(insertion: seq<Rank>)
    requires PairwiseBy(insertion, HigherRank)
    ensures PairwiseBy(ObjectKeyOrder(insertion), KeyBefore)
  {
    var numeric := Filter(INTEGER_KEYS, PresentIn(insertion));
    var named := Filter(insertion, IsStringKey);
    NumericKeysSorted(insertion);
    NamedKeysSorted(insertion);
    PairwiseConcat(numeric, named);
  }

  /** The keys of `rankCounts`, in enumeration order: each rank of the hand
      once, in `KeyBefore` order. */
  lemma {:induction false} CountKeysSpec(hand: seq<Card>)
    ensures PairwiseBy(CountKeys(SortedRanks(hand)), KeyBefore)
    ensures NoDup(CountKeys(SortedRanks(hand)))
    ensures forall r :: r in CountKeys(SortedRanks(hand)) <==> RankMult(hand, r) > 0
  {
    var ranks := SortedRanks(hand);
    SortedRanksDescending(hand);
    InsertionOrderDescending(ranks);
    ObjectKeyOrderSorted(InsertionOrder(ranks));
    KeyOrderNoDup(CountKeys(ranks));
    forall r ensures r in CountKeys(ranks) <==> RankMult(hand, r) > 0 {
      SortedRankCount(hand, r);
    }
  }

  /** `Object.entries(rankCounts).sort(...)`: each rank of the hand once,
      by descending count and, for equal counts, in `KeyBefore` order. */
  lemma {:induction false} MainKeysSpec(hand: seq<Card>)
    ensures NoDup(MainKeys(SortedRanks(hand)))
    ensures forall r :: r in MainKeys(SortedRanks(hand)) <==> RankMult(hand, r) > 0
    ensures LexSortedBy(MainKeys(SortedRanks(hand)), RankCount(SortedRanks(hand)), KeyBefore)
  {
    var ranks := SortedRanks(hand);
    var keys := CountKeys(ranks);
    CountKeysSpec(hand);
    SortLex(keys, RankCount(ranks), KeyBefore);
    NoDupPermutation(MainKeys(ranks), keys);
    forall r ensures r in MainKeys(ranks) <==> r in keys {
      assert r in MainKeys(ranks) <==> r in multiset(MainKeys(ranks));
    }
  }

  /** A card whose rank is among `keys` has its value among the keys' values. */
  lemma {:induction false} ValuesCovered(sorted: seq<Card>, keys: seq<Rank>)
    requires forall i :: 0 <= i < |sorted| ==> sorted[i].rank in keys
    ensures forall i :: 0 <= i < |sorted| ==> Map(sorted, CardValue)[i] in Map(keys, RankValue)
  {
    var main := Map(keys, RankValue);
    forall i | 0 <= i < |sorted| ensures Map(sorted, CardValue)[i] in main {
      var k :| 0 <= k < |keys| && keys[k] == sorted[i].rank;
      assert main[k] == CardValue(sorted[i]);
    }
  }

  /** Every card of the sorted hand has its rank among the keys of `rankCounts`. */
  lemma {:induction false} SortedRanksInMainKeys(hand: seq<Card>)
    ensures forall i :: 0 <= i < |SortedHand(hand)| ==> SortedHand(hand)[i].rank in MainKeys(SortedRanks(hand))
  {
    var sorted := SortedHand(hand);
    var ranks := SortedRanks(hand);
    MainKeysSpec(hand);
    forall i | 0 <= i < |sorted| ensures sorted[i].rank in MainKeys(ranks) {
      assert ranks[i] == sorted[i].rank;
      SortedRankCount(hand, ranks[i]);
      assert ranks[i] in multiset(ranks);
    }
  }

  lemma {:induction false} FilterNoneLeft(values: seq<int>, main: seq<int>)
    requires forall i :: 0 <= i < |values| ==> values[i] in main
    ensures Filter(values, NotIn(main)) == []
  {
    if values != [] {
      assert !NotIn(main)(values[0]);
      FilterNoneLeft(values[1..], main);
    }
  }

  /** Every rank value of the hand is already in `mainRanks`, so `kickers`
      is always empty. */
  lemma {:induction false} KickersEmpty(hand: seq<Card>)
    ensures Kickers(SortedValues(hand), MainRanks(SortedRanks(hand))) == []
  {
    SortedRanksInMainKeys(hand);
    ValuesCovered(SortedHand(hand), MainKeys(SortedRanks(hand)));
    FilterNoneLeft(SortedValues(hand), MainRanks(SortedRanks(hand)));
  }

  /** Each entry of `mainRanks` occurs as often in the hand as its key is counted. */
  lemma {:induction false} MainRanksMults(hand: seq<Card>)
    ensures forall k :: 0 <= k < |MainKeys(SortedRanks(hand))| ==>
      ValueMult(hand, MainRanks(SortedRanks(hand))[k]) == RankCount(SortedRanks(hand))(MainKeys(SortedRanks(hand))[k])
  {
    var ranks := SortedRanks(hand);
    var keys := MainKeys(ranks);
    forall k | 0 <= k < |keys| ensures ValueMult(hand, MainRanks(ranks)[k]) == RankCount(ranks)(keys[k]) {
      SortedRankCount(hand, keys[k]);
      MultByValue(hand, keys[k]);
    }
  }

  lemma {:induction false} KeyValuesNoDup(keys: seq<Rank>)
    requires NoDup(keys)
    ensures NoDup(Map(keys, RankValue))
  {
    var o := Map(keys, RankValue);
    forall i, j | 0 <= i < j < |o| ensures o[i] != o[j] {
      RankValueInjective(keys[i], keys[j]);
    }
  }

  /** The values of the hand's ranks are the hand's values. */
  lemma {:induction false} KeyValuesMembers(hand: seq<Card>, keys: seq<Rank>)
    requires forall r :: r in keys <==> RankMult(hand, r) > 0
    ensures forall v :: v in Map(keys, RankValue) <==> ValueMult(hand, v) > 0
  {
    var o := Map(keys, RankValue);
    forall v ensures v in o <==> ValueMult(hand, v) > 0 {
      if v in o {
        var k :| 0 <= k < |o| && o[k] == v;
        MultByValue(hand, keys[k]);
      }
      if ValueMult(hand, v) > 0 {
        var vs := Map(hand, CardValue);
        assert v in multiset(vs);
        var m :| 0 <= m < |vs| && vs[m] == v;
        MultByValue(hand, hand[m].rank);
        var k :| 0 <= k < |keys| && keys[k] == hand[m].rank;
        assert o[k] == v;
      }
    }
  }

  /** `mainRanks` holds exactly the rank values present in the hand, once each. */
  lemma {:induction false} MainRanksMembers(hand: seq<Card>)
    ensures NoDup(MainRanks(SortedRanks(hand)))
    ensures forall v :: v in MainRanks(SortedRanks(hand)) <==> ValueMult(hand, v) > 0
  {
    MainKeysSpec(hand);
    KeyValuesNoDup(MainKeys(SortedRanks(hand)));
    KeyValuesMembers(hand, MainKeys(SortedRanks(hand)));
  }

  /** `mainRanks` is ordered by descending multiplicity, then `ValueKeyBefore`. */
  lemma {:induction false} MainRanksOrder(hand: seq<Card>)
    ensures forall i, j :: 0 <= i < j < |MainRanks(SortedRanks(hand))| ==>
      ValueMult(hand, MainRanks(SortedRanks(hand))[i]) > ValueMult(hand, MainRanks(SortedRanks(hand))[j])
      || (ValueMult(hand, MainRanks(SortedRanks(hand))[i]) == ValueMult(hand, MainRanks(SortedRanks(hand))[j])
          && ValueKeyBefore(MainRanks(SortedRanks(hand))[i], MainRanks(SortedRanks(hand))[j]))
  {
    var ranks := SortedRanks(hand);
    var keys := MainKeys(ranks);
    var o := MainRanks(ranks);
    MainKeysSpec(hand);
    MainRanksMults(hand);
    forall i, j | 0 <= i < j < |o|
      ensures ValueMult(hand, o[i]) > ValueMult(hand, o[j])
        || (ValueMult(hand, o[i]) == ValueMult(hand, o[j]) && ValueKeyBefore(o[i], o[j]))
    {
      assert o[i] == RankValue(keys[i]) && o[j] == RankValue(keys[j]);
    }
  }

  /** `orderedRanks` lists each rank value of the hand exactly once, groups of
      higher multiplicity first and, within equal multiplicity, in
      `ValueKeyBefore` order: numeric ranks ascending, then face ranks and the
      Ace descending. */
  lemma {:induction false} OrderedRanksSpec(hand: seq<Card>)
    ensures OrderedRanks(hand) == MainRanks(SortedRanks(hand))
    ensures NoDup(OrderedRanks(hand))
    ensures forall v :: v in OrderedRanks(hand) <==> ValueMult(hand, v) > 0
    ensures forall i, j :: 0 <= i < j < |OrderedRanks(hand)| ==>
      ValueMult(hand, OrderedRanks(hand)[i]) > ValueMult(hand, OrderedRanks(hand)[j])
      || (ValueMult(hand, OrderedRanks(hand)[i]) == ValueMult(hand, OrderedRanks(hand)[j])
          && ValueKeyBefore(OrderedRanks(hand)[i], OrderedRanks(hand)[j]))
  {
    KickersEmpty(hand);
    assert OrderedRanks(hand) == MainRanks(SortedRanks(hand)) + [];
    MainRanksMembers(hand);
    MainRanksOrder(hand);
  }

  /** A duplicate-free list of the hand's values is at most as long as the
      hand, and non-empty for a non-empty hand when it holds every value. */
  lemma {:induction false} DistinctValuesCount(hand: seq<Card>, o: seq<int>)
    requires NoDup(o)
    requires forall v :: v in o <==> ValueMult(hand, v) > 0
    ensures |o| <= |hand|
    ensures hand != [] ==> |o| >= 1
  {
    var vs := Map(hand, CardValue);
    forall i | 0 <= i < |o| ensures o[i] in vs {
      assert o[i] in o;
      assert multiset(vs)[o[i]] > 0;
    }
    NoDupSubsetLength(o, vs);
    if hand != [] {
      assert vs[0] in multiset(vs);
      assert ValueMult(hand, vs[0]) > 0;
      assert vs[0] in o;
    }
  }

  /** Five suits drawn from four repeat one. */
  lemma {:induction false} FiveSuitsRepeat(s: seq<Suit>) returns (a: nat, b: nat)
    requires |s| == 5
    ensures a < b < 5 && s[a] == s[b]
  {
    if s[0] == s[1] { a, b := 0, 1; }
    else if s[0] == s[2] { a, b := 0, 2; }
    else if s[0] == s[3] { a, b := 0, 3; }
    else if s[0] == s[4] { a, b := 0, 4; }
    else if s[1] == s[2] { a, b := 1, 2; }
    else if s[1] == s[3] { a, b := 1, 3; }
    else if s[1] == s[4] { a, b := 1, 4; }
    else if s[2] == s[3] { a, b := 2, 3; }
    else if s[2] == s[4] { a, b := 2, 4; }
    else if s[3] == s[4] { a, b := 3, 4; }
    else { assert false; }
  }

  /** Five distinct cards cannot share one rank: there are only four suits. */
  lemma {:induction false} FiveCardsTwoRanks(hand: seq<Card>) returns (i: nat, j: nat)
    requires |hand| == 5 && NoDup(hand)
    ensures i < 5 && j < 5 && hand[i].rank != hand[j].rank
  {
    i, j := FiveSuitsRepeat(Map(hand, SuitOf));
    assert hand[i] != hand[j];
  }

  /** For five distinct cards `orderedRanks` has between 2 and 5 entries:
      one per distinct rank. */
  lemma {:induction false} OrderedRanksLength(hand: seq<Card>)
    requires |hand| == 5 && NoDup(hand)
    ensures 2 <= |OrderedRanks(hand)| <= 5
  {
    OrderedRanksSpec(hand);
    var i, j := FiveCardsTwoRanks(hand);
    TwoValuesCount(hand, OrderedRanks(hand), i, j);
  }

  lemma {:induction false} TwoValuesCount(hand: seq<Card>, o: seq<int>, i: nat, j: nat)
    requires NoDup(o)
    requires forall v :: v in o <==> ValueMult(hand, v) > 0
    requires i < |hand| && j < |hand| && hand[i].rank != hand[j].rank
    ensures 2 <= |o| <= |hand|
  {
    DistinctValuesCount(hand, o);
    var vs := Map(hand, CardValue);
    assert vs[i] in multiset(vs) && vs[j] in multiset(vs);
    assert ValueMult(hand, vs[i]) > 0 && ValueMult(hand, vs[j]) > 0;
    RankValueInjective(hand[i].rank, hand[j].rank);
    assert vs[i] in o && vs[j] in o && vs[i] != vs[j];
  }

  // ---------------------------------------------------------------------
  // A declarative reference classification
  // ---------------------------------------------------------------------

  /** All cards share one suit. */
  predicate IsFlushHand(hand: seq<Card>) {
    |hand| > 0 && forall i :: 0 <= i < |hand| ==> hand[i].suit == hand[0].suit
  }

  /** Five consecutive values ending at `top`, highest first. */
  function Run(top: int): seq<int> {
    [top, top - 1, top - 2, top - 3, top - 4]
  }

  /** The values form five consecutive ranks, or A-5-4-3-2. */
  ghost predicate IsStraightHand(hand: seq<Card>) {
    (exists top :: multiset(Map(hand, CardValue)) == multiset(Run(top)))
    || multiset(Map(hand, CardValue)) == multiset(ACE_LOW)
  }

  predicate HasAce(hand: seq<Card>) {
    ValueMult(hand, 14) > 0
  }

  /** `k` is the largest number of cards sharing a rank. */
  ghost predicate IsTopMult(hand: seq<Card>, k: int) {
    (exists r :: RankMult(hand, r) == k) && forall r :: RankMult(hand, r) <= k
  }

  /** Two different ranks occur exactly twice each. */
  ghost predicate HasTwoPairs(hand: seq<Card>) {
    exists r1, r2 :: r1 != r2 && RankMult(hand, r1) == 2 && RankMult(hand, r2) == 2
  }

  /** The category `evaluateFiveCardHand` assigns, stated on the unsorted
      hand: its test order, with the full-house test that never fires left
      out, and "royal" meaning any straight flush that holds an Ace. */
  ghost function ReferenceCategory(hand: seq<Card>): HandRank {
    if IsStraightHand(hand) && IsFlushHand(hand) then
      (if HasAce(hand) then RoyalFlush else StraightFlush)
    else if IsTopMult(hand, 4) then FourOfAKind
    else if IsFlushHand(hand) then Flush
    else if IsStraightHand(hand) then Straight
    else if IsTopMult(hand, 3) then ThreeOfAKind
    else if IsTopMult(hand, 2) && HasTwoPairs(hand) then TwoPair
    else if IsTopMult(hand, 2) then OnePair
    else HighCard
  }

  /** `new Set(suits).size === 1` on the sorted hand is a flush of the hand. */
  lemma {:induction false} FlushAgreement(hand: seq<Card>)
    requires |hand| > 0
    ensures AllSameSuit(Map(SortedHand(hand), SuitOf)) <==> IsFlushHand(hand)
  {
    FlushOfPermutation(SortedHand(hand), hand);
  }

  /** Any reordering of the hand is all of one suit exactly when the hand is. */
  lemma {:induction false} FlushOfPermutation(reordered: seq<Card>, hand: seq<Card>)
    requires multiset(reordered) == multiset(hand) && |hand| > 0
    ensures AllSameSuit(Map(reordered, SuitOf)) <==> IsFlushHand(hand)
  {
    var sorted := Map(reordered, SuitOf);
    var suits := Map(hand, SuitOf);
    MapMultiset(reordered, hand, SuitOf);
    assert |reordered| == |multiset(reordered)| == |hand|;
    AllEqualPermutation(sorted, suits);
    assert IsFlushHand(hand) <==> forall i :: 0 <= i < |suits| ==> suits[i] == suits[0];
  }

  lemma {:induction false} SortedValuesDescending(hand: seq<Card>)
    ensures SortedDescBy(SortedValues(hand), Id)
    ensures multiset(SortedValues(hand)) == multiset(Map(hand, CardValue))
  {
    var sorted := SortedHand(hand);
    var v := SortedValues(hand);
    forall i, j | 0 <= i < j < |v| ensures Id(v[i]) >= Id(v[j]) {
      assert CardValue(sorted[i]) >= CardValue(sorted[j]);
    }
    SortedValuesPermutation(hand);
  }

  lemma {:induction false} RunDescending(top: int)
    ensures SortedDescBy(Run(top), Id)
  {
  }

  lemma {:induction false} DescendingRunIsRun(v: seq<int>)
    requires |v| == 5 && IsDescendingRun(v)
    ensures v == Run(v[0])
  {
    assert v[1] == v[0] - 1 && v[2] == v[1] - 1 && v[3] == v[2] - 1 && v[4] == v[3] - 1;
  }

  lemma {:induction false} AceLowDescending()
    ensures SortedDescBy(ACE_LOW, Id)
  {
  }

  /** Values sorted high to low that hold A-5-4-3-2 are A-5-4-3-2. */
  lemma {:induction false} SortedAceLow(v: seq<int>)
    requires SortedDescBy(v, Id) && multiset(v) == multiset(ACE_LOW)
    ensures v == ACE_LOW
  {
    AceLowDescending();
    SortedDescUnique(v, ACE_LOW);
  }

  /** Values sorted high to low that hold a run are that run. */
  lemma {:induction false} SortedRun(v: seq<int>, top: int)
    requires SortedDescBy(v, Id) && multiset(v) == multiset(Run(top))
    ensures IsDescendingRun(v)
  {
    RunDescending(top);
    SortedDescUnique(v, Run(top));
    RunIsDescendingRun(top);
  }

  lemma {:induction false} RunIsDescendingRun(top: int)
    ensures IsDescendingRun(Run(top))
  {
  }

  /** On five values sorted high to low, the source's straight test holds
      exactly when the values are five consecutive ranks or A-5-4-3-2. */
  lemma {:induction false} StraightOnSorted(v: seq<int>)
    requires |v| == 5 && SortedDescBy(v, Id)
    ensures (IsDescendingRun(v) || v == ACE_LOW) <==>
      ((exists top :: multiset(v) == multiset(Run(top))) || multiset(v) == multiset(ACE_LOW))
  {
    if IsDescendingRun(v) {
      DescendingRunIsRun(v);
    }
    if multiset(v) == multiset(ACE_LOW) {
      SortedAceLow(v);
    }
    if exists top :: multiset(v) == multiset(Run(top)) {
      var top :| multiset(v) == multiset(Run(top));
      SortedRun(v, top);
    }
  }

  /** The source's straight test on the sorted values is a straight of the hand. */
  lemma {:induction false} StraightAgreement(hand: seq<Card>)
    requires |hand| == 5
    ensures (IsDescendingRun(SortedValues(hand)) || SortedValues(hand) == ACE_LOW) <==> IsStraightHand(hand)
  {
    SortedValuesDescending(hand);
    StraightOnSorted(SortedValues(hand));
  }

  /** `rankValues[0] === 14` exactly when the hand holds an Ace. */
  lemma {:induction false} TopAgreement(hand: seq<Card>)
    requires |hand| > 0
    ensures SortedValues(hand)[0] == 14 <==> HasAce(hand)
  {
    var v := SortedValues(hand);
    SortedValuesDescending(hand);
    if SortedValues(hand)[0] == 14 {
      assert 14 in multiset(v);
    }
    if HasAce(hand) {
      assert 14 in multiset(v);
      var k :| 0 <= k < |v| && v[k] == 14;
      assert k == 0 || Id(v[0]) >= Id(v[k]);
    }
  }

  /** The first of the counts, sorted high to low, is the largest count of
      any key. */
  /** The head of a list sorted high to low is one of its elements and the
      largest of them. */
  lemma {:induction false} SortedHeadIsMax(m: seq<int>)
    requires m != []
    ensures SortDescBy(m, Id)[0] in m
    ensures forall q :: 0 <= q < |m| ==> m[q] <= SortDescBy(m, Id)[0]
  {
    var c := SortDescBy(m, Id);
    assert c[0] in multiset(m);
    forall q | 0 <= q < |m| ensures m[q] <= c[0] {
      assert m[q] in multiset(c);
      var t :| 0 <= t < |c| && c[t] == m[q];
      assert t == 0 || Id(c[0]) >= Id(c[t]);
    }
  }

  lemma {:induction false} TopCount(keys: seq<Rank>, mult: Rank -> int, k: int)
    requires NoDup(keys) && k >= 1
    requires forall r :: r in keys <==> mult(r) > 0
    ensures At(SortDescBy(Map(keys, mult), Id), 0) == k <==>
      (exists r :: mult(r) == k) && (forall r :: mult(r) <= k)
  {
    var m := Map(keys, mult);
    var c := SortDescBy(m, Id);
    if keys != [] {
      SortedHeadIsMax(m);
      var p :| 0 <= p < |m| && m[p] == c[0];
      assert At(c, 0) == mult(keys[p]);
      if At(c, 0) == k {
        forall r | mult(r) > 0 ensures mult(r) <= k {
          var q :| 0 <= q < |keys| && keys[q] == r;
          assert m[q] <= c[0];
        }
      }
      if (exists r :: mult(r) == k) && (forall r :: mult(r) <= k) {
        var r :| mult(r) == k;
        var q :| 0 <= q < |keys| && keys[q] == r;
        assert m[q] <= c[0];
      }
    } else {
      assert At(c, 0) == 0;
      assert forall r :: mult(r) <= 0;
    }
  }

  /** With a top count of 2, the second count is 2 exactly when two
      different keys are counted twice. */
  lemma {:induction false} SecondCount(keys: seq<Rank>, mult: Rank -> int)
    requires NoDup(keys)
    requires forall r :: r in keys <==> mult(r) > 0
    requires At(SortDescBy(Map(keys, mult), Id), 0) == 2
    ensures At(SortDescBy(Map(keys, mult), Id), 1) == 2 <==>
      exists r1, r2 :: r1 != r2 && mult(r1) == 2 && mult(r2) == 2
  {
    var m := Map(keys, mult);
    var c := SortDescBy(m, Id);
    if At(c, 1) == 2 {
      var r1, r2 := TwoKeysFromCounts(keys, mult, c);
    }
    if exists r1, r2 :: r1 != r2 && mult(r1) == 2 && mult(r2) == 2 {
      var r1, r2 :| r1 != r2 && mult(r1) == 2 && mult(r2) == 2;
      var i :| 0 <= i < |keys| && keys[i] == r1;
      var j :| 0 <= j < |keys| && keys[j] == r2;
      if i < j {
        TwoPositionsAt(m, 2, i, j);
      } else {
        TwoPositionsAt(m, 2, j, i);
      }
      SecondFromTwo(c);
    }
  }

  /** Two leading counts of 2 come from two different keys. */
  lemma {:induction false} TwoKeysFromCounts(keys: seq<Rank>, mult: Rank -> int, c: seq<int>) returns (r1: Rank, r2: Rank)
    requires NoDup(keys)
    requires multiset(c) == multiset(Map(keys, mult))
    requires At(c, 0) == 2 && At(c, 1) == 2
    ensures r1 != r2 && mult(r1) == 2 && mult(r2) == 2
  {
    var m := Map(keys, mult);
    TwoPositionsAt(c, 2, 0, 1);
    TwoPositions(m, 2);
    var i, j :| 0 <= i < j < |m| && m[i] == 2 && m[j] == 2;
    r1, r2 := keys[i], keys[j];
  }

  /** In a descending sequence topped by 2 that holds 2 twice, the second
      element is 2. */
  lemma {:induction false} SecondFromTwo(c: seq<int>)
    requires SortedDescBy(c, Id) && At(c, 0) == 2 && multiset(c)[2] >= 2
    ensures At(c, 1) == 2
  {
    TwoPositions(c, 2);
    var p, q :| 0 <= p < q < |c| && c[p] == 2 && c[q] == 2;
    assert Id(c[1]) >= Id(c[q]) || q == 1;
    assert Id(c[0]) >= Id(c[1]);
  }

  lemma {:induction false} TwoPositionsAt(s: seq<int>, x: int, i: int, j: int)
    requires 0 <= i < j < |s| && s[i] == x && s[j] == x
    ensures multiset(s)[x] >= 2
  {
    TwoPositions(s, x);
  }

  /** The counts of `rankCounts` are the multiplicities of the hand. */
  lemma {:induction false} RankCountIsMult(hand: seq<Card>)
    ensures forall r :: RankCount(SortedRanks(hand))(r) == RankMult(hand, r)
  {
    forall r ensures RankCount(SortedRanks(hand))(r) == RankMult(hand, r) {
      SortedRankCount(hand, r);
    }
  }

  lemma {:induction false} TopMultTransfer(hand: seq<Card>, mult: Rank -> int, k: int)
    requires forall r :: mult(r) == RankMult(hand, r)
    ensures ((exists r :: mult(r) == k) && (forall r :: mult(r) <= k)) <==> IsTopMult(hand, k)
  {
    if exists r :: mult(r) == k {
      var r :| mult(r) == k;
      assert RankMult(hand, r) == k;
    }
    if exists r :: RankMult(hand, r) == k {
      var r :| RankMult(hand, r) == k;
      assert mult(r) == k;
    }
  }

  lemma {:induction false} TwoPairsTransfer(hand: seq<Card>, mult: Rank -> int)
    requires forall r :: mult(r) == RankMult(hand, r)
    ensures (exists r1, r2 :: r1 != r2 && mult(r1) == 2 && mult(r2) == 2) <==> HasTwoPairs(hand)
  {
    if exists r1, r2 :: r1 != r2 && mult(r1) == 2 && mult(r2) == 2 {
      var r1, r2 :| r1 != r2 && mult(r1) == 2 && mult(r2) == 2;
      assert RankMult(hand, r1) == 2 && RankMult(hand, r2) == 2;
    }
    if HasTwoPairs(hand) {
      var r1, r2 :| r1 != r2 && RankMult(hand, r1) == 2 && RankMult(hand, r2) == 2;
      assert mult(r1) == 2 && mult(r2) == 2;
    }
  }

  /** `counts[0] === k` says that `k` is the largest multiplicity of a rank. */
  lemma {:induction false} CountsTopAgreement(hand: seq<Card>, k: int)
    requires k >= 1
    ensures At(Counts(SortedRanks(hand)), 0) == k <==> IsTopMult(hand, k)
  {
    var ranks := SortedRanks(hand);
    CountKeysSpec(hand);
    RankCountIsMult(hand);
    TopCount(CountKeys(ranks), RankCount(ranks), k);
    TopMultTransfer(hand, RankCount(ranks), k);
  }

  /** With `counts[0] === 2`, `counts[1] === 2` says that two ranks are paired. */
  lemma {:induction false} CountsSecondAgreement(hand: seq<Card>)
    requires At(Counts(SortedRanks(hand)), 0) == 2
    ensures At(Counts(SortedRanks(hand)), 1) == 2 <==> HasTwoPairs(hand)
  {
    var ranks := SortedRanks(hand);
    CountKeysSpec(hand);
    RankCountIsMult(hand);
    SecondCount(CountKeys(ranks), RankCount(ranks));
    TwoPairsTransfer(hand, RankCount(ranks));
  }

  /** `evaluateFiveCardHand` assigns exactly the reference category. */
  lemma {:induction false} ClassifyMatchesReference(hand: seq<Card>)
    requires |hand| == 5
    ensures EvaluateFiveCardHand(hand).rank == ReferenceCategory(hand)
  {
    var v := SortedValues(hand);
    var counts := Counts(SortedRanks(hand));
    assert EvaluateFiveCardHand(hand).rank
      == Classify(IsDescendingRun(v) || v == ACE_LOW, AllSameSuit(Map(SortedHand(hand), SuitOf)), v[0], counts);
    FlushAgreement(hand);
    StraightAgreement(hand);
    TopAgreement(hand);
    CountsTopAgreement(hand, 4);
    CountsTopAgreement(hand, 3);
    CountsTopAgreement(hand, 2);
    if At(counts, 0) == 2 {
      CountsSecondAgreement(hand);
    }
  }

  // ---------------------------------------------------------------------
  // Consequences: unreachable full house, royal wheel, slot order examples
  // ---------------------------------------------------------------------

  /** The order of `orderedRanks` as one relation on values. */
  function SlotBefore(hand: seq<Card>): (int, int) -> bool {
    (a, b) => ValueMult(hand, a) > ValueMult(hand, b)
      || (ValueMult(hand, a) == ValueMult(hand, b) && ValueKeyBefore(a, b))
  }

  lemma {:induction false} SlotBeforeAsymmetric(hand: seq<Card>)
    ensures forall a, b :: SlotBefore(hand)(a, b) ==> !SlotBefore(hand)(b, a)
  {
  }

  /** The slot order of `OrderedRanksSpec`, restated with `SlotBefore`. */
  lemma {:induction false} SlotOrder(hand: seq<Card>, o: seq<int>)
    requires forall i, j :: 0 <= i < j < |o| ==>
      ValueMult(hand, o[i]) > ValueMult(hand, o[j])
      || (ValueMult(hand, o[i]) == ValueMult(hand, o[j]) && ValueKeyBefore(o[i], o[j]))
    ensures PairwiseBy(o, SlotBefore(hand))
  {
    forall i, j | 0 <= i < j < |o| ensures SlotBefore(hand)(o[i], o[j]) {
    }
  }

  /** The properties of `OrderedRanksSpec` pin `orderedRanks` down: any
      duplicate-free list of the hand's values in `SlotBefore` order is it. */
  lemma {:induction false} OrderedRanksDetermined(hand: seq<Card>, t: seq<int>)
    requires NoDup(t)
    requires forall v :: v in t <==> ValueMult(hand, v) > 0
    requires PairwiseBy(t, SlotBefore(hand))
    ensures OrderedRanks(hand) == t
  {
    OrderedRanksSpec(hand);
    SlotListUnique(hand, OrderedRanks(hand), t);
  }

  lemma {:induction false} SlotListUnique(hand: seq<Card>, o: seq<int>, t: seq<int>)
    requires NoDup(o) && NoDup(t)
    requires forall v :: v in o <==> ValueMult(hand, v) > 0
    requires forall v :: v in t <==> ValueMult(hand, v) > 0
    requires forall i, j :: 0 <= i < j < |o| ==>
      ValueMult(hand, o[i]) > ValueMult(hand, o[j])
      || (ValueMult(hand, o[i]) == ValueMult(hand, o[j]) && ValueKeyBefore(o[i], o[j]))
    requires PairwiseBy(t, SlotBefore(hand))
    ensures o == t
  {
    SlotOrder(hand, o);
    SlotBeforeAsymmetric(hand);
    forall x ensures x in o <==> x in t {
      assert x in o <==> ValueMult(hand, x) > 0;
    }
    PairwiseUnique(o, t, SlotBefore(hand));
  }

  /** The multiset of five listed values is the sum of their singletons. */
  lemma {:induction false} MultisetOfFive(a: int, b: int, c: int, d: int, e: int)
    ensures multiset([a, b, c, d, e]) == multiset{a} + multiset{b} + multiset{c} + multiset{d} + multiset{e}
  {
    assert [a, b, c, d, e] == [a] + [b] + [c] + [d] + [e];
  }

  /** A run of five holds only values between its bottom and its top. */
  lemma {:induction false} RunSpan(top: int, v: int)
    requires v in multiset(Run(top))
    ensures top - 4 <= v <= top
  {
    RunMembers(top);
  }

  /** A run of five holds exactly the values from its bottom to its top. */
  lemma {:induction false} RunMembers(top: int)
    ensures forall v :: v in multiset(Run(top)) <==> top - 4 <= v <= top
  {
    MultisetOfFive(top, top - 1, top - 2, top - 3, top - 4);
  }

  /** Two cards of one rank in a hand without duplicates differ in suit. */
  lemma {:induction false} PairedNotFlush(hand: seq<Card>, r: Rank)
    requires NoDup(hand) && RankMult(hand, r) >= 2
    ensures !IsFlushHand(hand)
  {
    var ranks := Map(hand, RankOf);
    TwoPositions(ranks, r);
    var i, j :| 0 <= i < j < |ranks| && ranks[i] == r && ranks[j] == r;
    assert hand[i] != hand[j];
    assert hand[i].suit != hand[j].suit;
  }

  /** A run of five, or the wheel, never repeats a value. */
  lemma {:induction false} PairedNotStraight(hand: seq<Card>, r: Rank)
    requires RankMult(hand, r) >= 2
    ensures !IsStraightHand(hand)
  {
    MultByValue(hand, r);
    RepeatNotRun(multiset(Map(hand, CardValue)), RankValue(r));
  }

  /** A multiset holding some value twice is neither a run nor the wheel. */
  lemma {:induction false} RepeatNotRun(vs: multiset<int>, v: int)
    requires vs[v] >= 2
    ensures forall top :: vs != multiset(Run(top))
    ensures vs != multiset(ACE_LOW)
  {
    forall top ensures vs != multiset(Run(top)) {
      RunSingleValues(top, v);
    }
    AceLowSingleValues(v);
  }

  /** Each value occurs at most once in A-5-4-3-2. */
  lemma {:induction false} AceLowSingleValues(v: int)
    ensures multiset(ACE_LOW)[v] <= 1
  {
    assert ACE_LOW == [14, 5, 4, 3, 2];
    MultisetOfFive(14, 5, 4, 3, 2);
  }

  /** Each value occurs at most once in a run. */
  lemma {:induction false} RunSingleValues(top: int, v: int)
    ensures multiset(Run(top))[v] <= 1
  {
    MultisetOfFive(top, top - 1, top - 2, top - 3, top - 4);
  }

  /** Three of five cards sharing a rank leave at most two for any other. */
  lemma {:induction false} TripleIsTop(hand: seq<Card>, r1: Rank)
    requires |hand| == 5 && RankMult(hand, r1) == 3
    ensures IsTopMult(hand, 3)
  {
    forall r ensures RankMult(hand, r) <= 3 {
      if r != r1 {
        MultPairBound(Map(hand, RankOf), r1, r);
      }
    }
  }

  /** Three cards of one rank and two of another make three of a kind:
      the full-house test never fires. */
  lemma {:induction false} ThreePlusTwoIsThreeOfAKind(hand: seq<Card>, r1: Rank, r2: Rank)
    requires |hand| == 5 && NoDup(hand)
    requires RankMult(hand, r1) == 3 && RankMult(hand, r2) == 2
    ensures EvaluateFiveCardHand(hand).rank == ThreeOfAKind
  {
    ClassifyMatchesReference(hand);
    PairedNotFlush(hand, r1);
    PairedNotStraight(hand, r1);
    TripleIsTop(hand, r1);
    assert !IsTopMult(hand, 4);
  }

  /** A suited A-5-4-3-2 is labelled a royal flush. */
  lemma {:induction false} WheelStraightFlushIsRoyal(hand: seq<Card>)
    requires |hand| == 5 && IsFlushHand(hand)
    requires multiset(Map(hand, CardValue)) == multiset(ACE_LOW)
    ensures EvaluateFiveCardHand(hand).rank == RoyalFlush
  {
    ClassifyMatchesReference(hand);
    assert 14 in multiset(ACE_LOW);
  }

  // ---------------------------------------------------------------------
  // Worked hands: how the packed slots compare
  // ---------------------------------------------------------------------

  /** With every value of the hand distinct, `orderedRanks` is the list `t`
      of those values in object-key order: 2 … 10 ascending, then J, Q, K, A
      descending. */
  lemma {:induction false} SingletonSlots(hand: seq<Card>, t: seq<int>)
    requires NoDup(t)
    requires multiset(Map(hand, CardValue)) == multiset(t)
    requires forall i, j :: 0 <= i < j < |t| ==> ValueKeyBefore(t[i], t[j])
    ensures OrderedRanks(hand) == t
  {
    NoDupMultiset(t);
    forall v ensures v in t <==> ValueMult(hand, v) > 0 {
      assert v in t <==> v in multiset(t);
    }
    forall i, j | 0 <= i < j < |t| ensures SlotBefore(hand)(t[i], t[j]) {
      assert t[i] in multiset(t) && t[j] in multiset(t);
    }
    OrderedRanksDetermined(hand, t);
  }

  /** Five distinct values leave no rank paired. */
  lemma {:induction false} DistinctValuesUnpaired(hand: seq<Card>)
    requires forall v :: ValueMult(hand, v) <= 1
    ensures forall k :: k >= 2 ==> !IsTopMult(hand, k)
  {
    forall r ensures RankMult(hand, r) <= 1 {
      MultByValue(hand, r);
    }
  }

  /** Five distinct values of mixed suits that are no straight are a high card. */
  lemma {:induction false} UnpairedHighCard(hand: seq<Card>)
    requires |hand| == 5 && !IsFlushHand(hand) && !IsStraightHand(hand)
    requires forall v :: ValueMult(hand, v) <= 1
    ensures EvaluateFiveCardHand(hand).rank == HighCard
  {
    DistinctValuesUnpaired(hand);
    assert !IsTopMult(hand, 4) && !IsTopMult(hand, 3) && !IsTopMult(hand, 2);
    assert ReferenceCategory(hand) == HighCard;
    ClassifyMatchesReference(hand);
  }

  /** Five distinct values of mixed suits that form a straight are a straight. */
  lemma {:induction false} UnpairedStraight(hand: seq<Card>)
    requires |hand| == 5 && !IsFlushHand(hand) && IsStraightHand(hand)
    requires forall v :: ValueMult(hand, v) <= 1
    ensures EvaluateFiveCardHand(hand).rank == Straight
  {
    DistinctValuesUnpaired(hand);
    assert !IsTopMult(hand, 4);
    assert ReferenceCategory(hand) == Straight;
    ClassifyMatchesReference(hand);
  }

  /** Distinct values listed in object-key order. */
  predicate KeyOrdered(t: seq<int>) {
    NoDup(t) && forall i, j :: 0 <= i < j < |t| ==> ValueKeyBefore(t[i], t[j])
  }

  /** The slot lists of the worked hands below are in object-key order. */
  lemma {:induction false} WorkedSlotsKeyOrdered()
    ensures KeyOrdered([2, 4, 7, 9, 13]) && KeyOrdered([3, 4, 5, 7, 8])
    ensures KeyOrdered([2, 3, 4, 5, 14]) && KeyOrdered([2, 3, 4, 5, 6])
  {
  }

  /** With distinct values in key order `t`, the value packs the slots of `t`. */
  lemma {:induction false} PackedFromSlots(hand: seq<Card>, t: seq<int>)
    requires |hand| == 5 && KeyOrdered(t)
    requires multiset(Map(hand, CardValue)) == multiset(t)
    ensures EvaluateFiveCardHand(hand).value == PackValue(EvaluateFiveCardHand(hand).rank, t)
  {
    SingletonSlots(hand, t);
  }

  /** The values of a hand that is a permutation of the distinct list `t`
      occur once each. */
  lemma {:induction false} PermutedDistinct(hand: seq<Card>, t: seq<int>)
    requires NoDup(t) && multiset(Map(hand, CardValue)) == multiset(t)
    ensures forall v :: ValueMult(hand, v) <= 1
  {
    NoDupMultiset(t);
  }

  /** A multiset holding `hi` and `hi - 4` but not some value between
      them is no run of five. */
  lemma {:induction false} GapNotRun(vs: multiset<int>, hi: int, missing: int)
    requires hi in vs && hi - 4 in vs
    requires hi - 4 < missing < hi && missing !in vs
    ensures forall top :: vs != multiset(Run(top))
  {
    forall top ensures vs != multiset(Run(top)) {
      RunMembers(top);
      assert hi !in multiset(Run(top)) || hi - 4 !in multiset(Run(top)) || missing in multiset(Run(top));
    }
  }

  /** Values without an Ace are not A-5-4-3-2. */
  lemma {:induction false} AceLowHasAce(vs: multiset<int>)
    requires 14 !in vs
    ensures vs != multiset(ACE_LOW)
  {
    assert 14 in multiset(ACE_LOW);
  }

  /** The packed values of the worked hands' slots. */
  lemma {:induction false} WorkedPacks()
    ensures PackValue(HighCard, [2, 4, 7, 9, 13]) == 0x2479D
    ensures PackValue(HighCard, [3, 4, 5, 7, 8]) == 0x34578
    ensures PackValue(Straight, [2, 3, 4, 5, 14]) == 0x42345E
    ensures PackValue(Straight, [2, 3, 4, 5, 6]) == 0x423456
  {
  }

  /** K, 9, 7, 4, 2 is no run of five and not the wheel. */
  lemma {:induction false} KingHighNotStraight(hand: seq<Card>)
    requires multiset(Map(hand, CardValue)) == multiset([2, 4, 7, 9, 13])
    ensures !IsStraightHand(hand)
  {
    var vs := multiset(Map(hand, CardValue));
    assert 13 in vs && 9 in vs && 12 !in vs && 14 !in vs;
    GapNotRun(vs, 13, 12);
    AceLowHasAce(vs);
  }

  /** 8, 7, 5, 4, 3 is no run of five and not the wheel. */
  lemma {:induction false} EightHighNotStraight(hand: seq<Card>)
    requires multiset(Map(hand, CardValue)) == multiset([3, 4, 5, 7, 8])
    ensures !IsStraightHand(hand)
  {
    var vs := multiset(Map(hand, CardValue));
    assert 8 in vs && 4 in vs && 6 !in vs && 14 !in vs;
    GapNotRun(vs, 8, 6);
    AceLowHasAce(vs);
  }

  /** A-5-4-3-2 is a straight; its slots are 2, 3, 4, 5, A. */
  lemma {:induction false} WheelIsStraight(hand: seq<Card>)
    requires multiset(Map(hand, CardValue)) == multiset(ACE_LOW)
    ensures IsStraightHand(hand)
    ensures multiset(Map(hand, CardValue)) == multiset([2, 3, 4, 5, 14])
  {
    WheelSlots();
  }

  /** A-5-4-3-2 holds the slots 2, 3, 4, 5, A. */
  lemma {:induction false} WheelSlots()
    ensures multiset(ACE_LOW) == multiset([2, 3, 4, 5, 14])
  {
    MultisetOfFive(2, 3, 4, 5, 14);
    MultisetOfFive(14, 5, 4, 3, 2);
  }

  /** 6-5-4-3-2 is a straight; its slots are 2 … 6. */
  lemma {:induction false} SixHighIsStraight(hand: seq<Card>)
    requires multiset(Map(hand, CardValue)) == multiset(Run(6))
    ensures IsStraightHand(hand)
    ensures multiset(Map(hand, CardValue)) == multiset([2, 3, 4, 5, 6])
  {
    SixHighSlots();
  }

  /** The run 6-5-4-3-2 holds the slots 2 … 6. */
  lemma {:induction false} SixHighSlots()
    ensures multiset(Run(6)) == multiset([2, 3, 4, 5, 6])
  {
    MultisetOfFive(2, 3, 4, 5, 6);
    MultisetOfFive(6, 5, 4, 3, 2);
  }

  /** Any five cards of values K, 9, 7, 4, 2, not all of one suit, form a
      high card whose slots hold 2, 4, 7, 9, K: the value is 0x2479D. */
  lemma {:induction false} KingHighValue(hand: seq<Card>)
    requires |hand| == 5 && !IsFlushHand(hand)
    requires multiset(Map(hand, CardValue)) == multiset([2, 4, 7, 9, 13])
    ensures EvaluateFiveCardHand(hand) == HandResult(HighCard, 0x2479D)
  {
    WorkedSlotsKeyOrdered();
    PermutedDistinct(hand, [2, 4, 7, 9, 13]);
    KingHighNotStraight(hand);
    UnpairedHighCard(hand);
    PackedFromSlots(hand, [2, 4, 7, 9, 13]);
    WorkedPacks();
    var r := EvaluateFiveCardHand(hand);
    assert r.rank == HighCard && r.value == 0x2479D;
  }

  /** Any five cards of values 8, 7, 5, 4, 3, not all of one suit, form a
      high card valued 0x34578: more than the king-high hand above. */
  lemma {:induction false} EightHighValue(hand: seq<Card>)
    requires |hand| == 5 && !IsFlushHand(hand)
    requires multiset(Map(hand, CardValue)) == multiset([3, 4, 5, 7, 8])
    ensures EvaluateFiveCardHand(hand) == HandResult(HighCard, 0x34578)
  {
    WorkedSlotsKeyOrdered();
    PermutedDistinct(hand, [3, 4, 5, 7, 8]);
    EightHighNotStraight(hand);
    UnpairedHighCard(hand);
    PackedFromSlots(hand, [3, 4, 5, 7, 8]);
    WorkedPacks();
    var r := EvaluateFiveCardHand(hand);
    assert r.rank == HighCard && r.value == 0x34578;
  }

  /** A-5-4-3-2, not all of one suit, is a straight whose slots hold
      2, 3, 4, 5, A: the value is 0x42345E. */
  lemma {:induction false} WheelValue(hand: seq<Card>)
    requires |hand| == 5 && !IsFlushHand(hand)
    requires multiset(Map(hand, CardValue)) == multiset(ACE_LOW)
    ensures EvaluateFiveCardHand(hand) == HandResult(Straight, 0x42345E)
  {
    WorkedSlotsKeyOrdered();
    WheelIsStraight(hand);
    PermutedDistinct(hand, [2, 3, 4, 5, 14]);
    UnpairedStraight(hand);
    PackedFromSlots(hand, [2, 3, 4, 5, 14]);
    WorkedPacks();
    var r := EvaluateFiveCardHand(hand);
    assert r.rank == Straight && r.value == 0x42345E;
  }

  /** 6-5-4-3-2, not all of one suit, is a straight valued 0x423456: less
      than the A-5-4-3-2 straight above. */
  lemma {:induction false} SixHighStraightValue(hand: seq<Card>)
    requires |hand| == 5 && !IsFlushHand(hand)
    requires multiset(Map(hand, CardValue)) == multiset(Run(6))
    ensures EvaluateFiveCardHand(hand) == HandResult(Straight, 0x423456)
  {
    WorkedSlotsKeyOrdered();
    SixHighIsStraight(hand);
    PermutedDistinct(hand, [2, 3, 4, 5, 6]);
    UnpairedStraight(hand);
    PackedFromSlots(hand, [2, 3, 4, 5, 6]);
    WorkedPacks();
    var r := EvaluateFiveCardHand(hand);
    assert r.rank == Straight && r.value == 0x423456;
  }

  /** Compared by value, 8-7-5-4-3 beats K-9-7-4-2: the slots hold the
      numeric ranks ascending, so the lowest card leads the comparison. */
  lemma {:induction false} EightHighBeatsKingHigh(eight: seq<Card>, king: seq<Card>)
    requires |eight| == 5 && !IsFlushHand(eight)
    requires multiset(Map(eight, CardValue)) == multiset([3, 4, 5, 7, 8])
    requires |king| == 5 && !IsFlushHand(king)
    requires multiset(Map(king, CardValue)) == multiset([2, 4, 7, 9, 13])
    ensures EvaluateFiveCardHand(eight).rank == EvaluateFiveCardHand(king).rank == HighCard
    ensures EvaluateFiveCardHand(eight).value > EvaluateFiveCardHand(king).value
  {
    EightHighValue(eight);
    KingHighValue(king);
  }

  /** Compared by value, the A-5-4-3-2 straight beats the 6-5-4-3-2 straight:
      the Ace keeps its value 14 in the last slot. */
  lemma {:induction false} WheelBeatsSixHighStraight(wheel: seq<Card>, six: seq<Card>)
    requires |wheel| == 5 && !IsFlushHand(wheel)
    requires multiset(Map(wheel, CardValue)) == multiset(ACE_LOW)
    requires |six| == 5 && !IsFlushHand(six)
    requires multiset(Map(six, CardValue)) == multiset(Run(6))
    ensures EvaluateFiveCardHand(wheel).rank == EvaluateFiveCardHand(six).rank == Straight
    ensures EvaluateFiveCardHand(wheel).value > EvaluateFiveCardHand(six).value
  {
    WheelValue(wheel);
    SixHighStraightValue(six);
  }
}
