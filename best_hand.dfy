/** `evaluateHand`: the best five-card hand among all cards known to a player. */
module BestHand {
  import opened Types
  import opened Seqs
  import opened Combinations
  import opened HandEvaluator

  /** `evaluateFiveCardHand` of every combination, in order. */
  function EvaluateAll(combos: seq<seq<Card>>): (results: seq<HandResult>)
    requires forall i :: 0 <= i < |combos| ==> |combos[i]| == 5
    ensures |results| == |combos|
    ensures forall k :: 0 <= k < |combos| ==> results[k] == EvaluateFiveCardHand(combos[k])
  {
    seq(|combos|, k requires 0 <= k < |combos| => EvaluateFiveCardHand(combos[k]))
  }

  /** The result the loop keeps: a later result replaces the kept one only
      when its value is strictly larger. No result has a larger value. */
  function BestOf(results: seq<HandResult>): (best: HandResult)
    requires results != []
    ensures forall j :: 0 <= j < |results| ==> results[j].value <= best.value
  {
    if |results| == 1 then results[0]
    else
      var init := results[..|results| - 1];
      var last := results[|results| - 1];
      var kept := BestOf(init);
      assert forall j :: 0 <= j < |init| ==> results[j] == init[j];
      if last.value > kept.value then last else kept
  }

  /** The kept result is one of the results, the first one of largest value. */
  lemma {:induction false} BestOfFirst(results: seq<HandResult>)
    requires results != []
    ensures exists k ::
      (0 <= k < |results| && results[k] == BestOf(results)
       && forall j :: 0 <= j < k ==> results[j].value < results[k].value)
  {
    if |results| == 1 {
      assert results[0] == BestOf(results);
    } else {
      var init := results[..|results| - 1];
      BestOfFirst(init);
      var k :| 0 <= k < |init| && init[k] == BestOf(init)
        && forall j :: 0 <= j < k ==> init[j].value < init[k].value;
      if results[|results| - 1].value > BestOf(init).value {
        assert forall j :: 0 <= j < |init| ==> results[j] == init[j];
        assert results[|results| - 1] == BestOf(results);
      } else {
        assert results[k] == BestOf(results);
        assert forall j :: 0 <= j < k ==> results[j] == init[j];
      }
    }
  }

  /** What `evaluateHand(allCards)` returns for at least five cards. */
  function BestHandOf(allCards: seq<Card>): HandResult
    requires |allCards| >= 5
  {
    var combos := Combos(allCards, 5);
    CombosSound(allCards, 5);
    CombosNonEmpty(allCards);
    BestOf(EvaluateAll(combos))
  }

  lemma {:induction false} BinomPositive(n: nat, k: nat)
    requires k <= n
    ensures Binom(n, k) >= 1
  {
    if k > 0 {
      BinomPositive(n - 1, k - 1);
    }
  }

  /** Every combination holds five cards. */
  lemma {:induction false} CombosLengths(allCards: seq<Card>)
    ensures forall j :: 0 <= j < |Combos(allCards, 5)| ==> |Combos(allCards, 5)[j]| == 5
  {
    CombosSound(allCards, 5);
    forall j | 0 <= j < |Combos(allCards, 5)| ensures |Combos(allCards, 5)[j]| == 5 {
      assert Combos(allCards, 5)[j] in Combos(allCards, 5);
    }
  }

  /** At least five cards give at least one five-card combination. */
  lemma {:induction false} CombosNonEmpty(allCards: seq<Card>)
    requires |allCards| >= 5
    ensures Combos(allCards, 5) != []
  {
    CombosCount(allCards, 5);
    BinomPositive(|allCards|, 5);
  }

  /** Appending one result to a list: `BestOf` keeps the old best unless the
      new one is strictly larger. */
  lemma {:induction false} BestOfSnoc(rs: seq<HandResult>, x: HandResult)
    ensures BestOf(rs + [x]) == if rs == [] then x else if x.value > BestOf(rs).value then x else BestOf(rs)
  {
    assert (rs + [x])[..|rs|] == rs;
  }

  /** `evaluateHand` for at least five cards: evaluate every five-card
      combination and keep the first result of largest value. */
  method EvaluateHand(allCards: seq<Card>) returns (best: HandResult)
    requires |allCards| >= 5
    ensures best == BestHandOf(allCards)
  {
    var combinations := GetCombinations(allCards, 5);
    CombosLengths(allCards);
    CombosNonEmpty(allCards);
    best := ScanCombinations(combinations, EvaluateAll(combinations));
  }

  /** The loop of `evaluateHand` over the combinations; `results` names the
      evaluations it visits. */
  method ScanCombinations(combinations: seq<seq<Card>>, ghost results: seq<HandResult>) returns (best: HandResult)
    requires combinations != []
    requires forall j :: 0 <= j < |combinations| ==> |combinations[j]| == 5
    requires results == EvaluateAll(combinations)
    ensures best == BestOf(results)
  {
    var bestHand: Option<HandResult> := None;
    for i := 0 to |combinations|
      invariant Scanned(results, i, bestHand)
    {
      var currentHand := EvaluateFiveCardHand(combinations[i]);
      ScanStep(results, i, bestHand);
      bestHand := Some(Keep(bestHand, currentHand));
    }
    ScanDone(results, bestHand);
    best := bestHand.value;
  }

  /** One step of the loop: the next result replaces the kept one when there
      is none yet or its value is strictly larger. */
  function Keep(bestHand: Option<HandResult>, currentHand: HandResult): (kept: HandResult)
    ensures kept == currentHand || bestHand == Some(kept)
    ensures bestHand.Some? ==> kept.value >= bestHand.value.value && kept.value >= currentHand.value
  {
    if bestHand.None? || currentHand.value > bestHand.value.value then currentHand else bestHand.value
  }

  /** The loop's state after visiting the first `i` results. */
  ghost predicate Scanned(results: seq<HandResult>, i: int, bestHand: Option<HandResult>)
    requires 0 <= i <= |results|
  {
    bestHand == if i == 0 then None else Some(BestOf(results[..i]))
  }

  lemma {:induction false} ScanStep(results: seq<HandResult>, i: int, bestHand: Option<HandResult>)
    requires 0 <= i < |results| && Scanned(results, i, bestHand)
    ensures Scanned(results, i + 1, Some(Keep(bestHand, results[i])))
  {
    assert results[..i + 1] == results[..i] + [results[i]];
    BestOfSnoc(results[..i], results[i]);
  }

  lemma {:induction false} ScanDone(results: seq<HandResult>, bestHand: Option<HandResult>)
    requires results != [] && Scanned(results, |results|, bestHand)
    ensures bestHand == Some(BestOf(results))
  {
    assert results[..|results|] == results;
  }

  /** The best hand is the evaluation of one of the five-card sub-lists. */
  lemma {:induction false} BestHandAchieved(allCards: seq<Card>)
    requires |allCards| >= 5
    ensures exists c :: |c| == 5 && IsSubseq(c, allCards) && BestHandOf(allCards) == EvaluateFiveCardHand(c)
  {
    var combos := Combos(allCards, 5);
    CombosSound(allCards, 5);
    CombosNonEmpty(allCards);
    var results := EvaluateAll(combos);
    BestOfFirst(results);
    var k :| 0 <= k < |results| && results[k] == BestHandOf(allCards);
    assert combos[k] in combos;
  }

  /** No five-card sub-list has a larger value than the best hand. */
  lemma {:induction false} BestHandIsBest(allCards: seq<Card>, c: seq<Card>)
    requires |allCards| >= 5 && |c| == 5 && IsSubseq(c, allCards)
    ensures EvaluateFiveCardHand(c).value <= BestHandOf(allCards).value
  {
    var combos := Combos(allCards, 5);
    CombosSound(allCards, 5);
    CombosNonEmpty(allCards);
    CombosComplete(allCards, 5, c);
    var k :| 0 <= k < |combos| && combos[k] == c;
    assert EvaluateAll(combos)[k] == EvaluateFiveCardHand(c);
  }

  /** No five-card sub-list has a stronger category than the best hand. */
  lemma {:induction false} BestHandCategory(allCards: seq<Card>, c: seq<Card>)
    requires |allCards| >= 5 && |c| == 5 && IsSubseq(c, allCards)
    ensures Ordinal(EvaluateFiveCardHand(c).rank) <= Ordinal(BestHandOf(allCards).rank)
  {
    BestHandIsBest(allCards, c);
    BestHandAchieved(allCards);
  }

  /** For exactly five cards the best hand is the evaluation of the cards. */
  lemma {:induction false} BestHandOfFive(allCards: seq<Card>)
    requires |allCards| == 5
    ensures BestHandOf(allCards) == EvaluateFiveCardHand(allCards)
  {
    assert Combos(allCards, 5) == [allCards];
  }
}
