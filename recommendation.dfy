/** `getRecommendation`: a closed-form betting advice from the win
    probability (in percent), the pot, the amount to call and the stack.
    Amounts are exact reals; `Math.floor` is `.Floor` and `Math.min` is `Min`. */
module Recommender {
  import opened Types

  function Min(a: real, b: real): (m: real)
    ensures m <= a && m <= b && (m == a || m == b)
  {
    if a <= b then a else b
  }

  /** `Math.floor(x)` as a number. */
  function Floor(x: real): (f: real)
    ensures f <= x < f + 1.0
  {
    x.Floor as real
  }

  /** `stackSize > 0 ? stackSize : 0`. */
  function EffectiveStack(stackSize: real): (s: real)
    ensures s >= 0.0
    ensures s == stackSize || (s == 0.0 && stackSize <= 0.0)
  {
    if stackSize > 0.0 then stackSize else 0.0
  }

  /** `winProbability > requiredEquity` with `requiredEquity =
      amountToCall / (potSize + 2·amountToCall) · 100`. A zero divisor
      makes the quotient an infinity of the sign of `amountToCall`, which a
      finite probability exceeds only when it is negative. */
  predicate BeatsPotOdds(winProbability: real, potSize: real, amountToCall: real) {
    var totalPotIfWeCall := potSize + amountToCall + amountToCall;
    if totalPotIfWeCall == 0.0 then amountToCall < 0.0
    else winProbability > (amountToCall / totalPotIfWeCall) * 100.0
  }

  function Plain(key: Recommendation): RecommendationResult {
    RecommendationResult(key, None, None)
  }

  function Sized(key: Recommendation, amountMin: real, amountMax: real): RecommendationResult {
    RecommendationResult(key, Some(amountMin), Some(amountMax))
  }

  /** The decision tree of `getRecommendation`. */
  function GetRecommendation(winProbability: real, potSize: real, amountToCall: real, stackSize: real)
    : (r: RecommendationResult)
    // Only Bet and Raise carry a sizing range.
    ensures (r.key == Bet || r.key == Raise) <==> r.amountMin.Some?
    ensures r.amountMin.Some? <==> r.amountMax.Some?
    // With nothing to call: Bet or Check, and Bet exactly when the hand is
    // strong and both the pot and the stack are positive.
    ensures amountToCall == 0.0 ==> (r.key == Bet || r.key == Check)
    ensures r.key == Check <==> amountToCall == 0.0 && r.key != Bet
    ensures r.key == Bet <==>
      amountToCall == 0.0 && winProbability > 60.0 && Floor(potSize) > 0.0 && stackSize > 0.0
    ensures r.key == Bet ==>
      r.amountMin == Some(Min(stackSize, Floor(potSize * 0.5)))
      && r.amountMax == Some(Min(stackSize, Floor(potSize)))
      && r.amountMin.value <= r.amountMax.value <= stackSize
    // A call of the whole stack or more: all-in or fold, by the pot odds.
    ensures amountToCall != 0.0 && amountToCall >= EffectiveStack(stackSize) ==>
      (r.key == AllIn <==> BeatsPotOdds(winProbability, potSize, amountToCall))
      && (r.key == Fold <==> !BeatsPotOdds(winProbability, potSize, amountToCall))
    // A call the stack covers with more than 70%: a raise when the stack
    // covers the minimum raise of 2.5 times the call, all-in otherwise.
    ensures amountToCall != 0.0 && amountToCall < EffectiveStack(stackSize) && winProbability > 70.0 ==>
      (r.key == AllIn <==> Floor(amountToCall * 2.5) > EffectiveStack(stackSize))
      && (r.key == Raise <==> Floor(amountToCall * 2.5) <= EffectiveStack(stackSize))
    ensures r.key == AllIn <==>
      amountToCall != 0.0
      && ((amountToCall >= EffectiveStack(stackSize) && BeatsPotOdds(winProbability, potSize, amountToCall))
          || (amountToCall < EffectiveStack(stackSize) && winProbability > 70.0
              && Floor(amountToCall * 2.5) > EffectiveStack(stackSize)))
    // A raise needs more than 70% and a minimum raise the stack covers.
    ensures r.key == Raise ==>
      amountToCall != 0.0 && amountToCall < EffectiveStack(stackSize) && winProbability > 70.0
      && Floor(amountToCall * 2.5) <= EffectiveStack(stackSize)
      && r.amountMin == Some(Floor(amountToCall * 2.5))
      && r.amountMax == Some(Min(EffectiveStack(stackSize), Floor(amountToCall * 3.5)))
      && r.amountMax.value <= EffectiveStack(stackSize)
      && (amountToCall > 0.0 ==> r.amountMin.value <= r.amountMax.value)
    ensures r.key == Call <==>
      amountToCall != 0.0 && amountToCall < EffectiveStack(stackSize) && winProbability <= 70.0
      && BeatsPotOdds(winProbability, potSize, amountToCall)
    // Folding means facing a bet whose pot odds are not met, either with the
    // whole stack at stake or with at most 70%.
    ensures r.key == Fold <==>
      amountToCall != 0.0 && !BeatsPotOdds(winProbability, potSize, amountToCall)
      && (amountToCall >= EffectiveStack(stackSize) || winProbability <= 70.0)
  {
    var effectiveStack := EffectiveStack(stackSize);
    if amountToCall == 0.0 then
      var amountMin := Floor(potSize * 0.5);
      var amountMax := Floor(potSize * 1.0);
      if winProbability > 60.0 && amountMax > 0.0 && effectiveStack > 0.0 then
        Sized(Bet, Min(effectiveStack, amountMin), Min(effectiveStack, amountMax))
      else
        Plain(Check)
    else if amountToCall >= effectiveStack then
      if BeatsPotOdds(winProbability, potSize, amountToCall) then Plain(AllIn) else Plain(Fold)
    else if winProbability > 70.0 then
      var raiseMin := Floor(amountToCall * 2.5);
      var raiseMax := Floor(amountToCall * 3.5);
      if raiseMin > effectiveStack then Plain(AllIn)
      else Sized(Raise, Min(effectiveStack, raiseMin), Min(effectiveStack, raiseMax))
    else if BeatsPotOdds(winProbability, potSize, amountToCall) then Plain(Call)
    else Plain(Fold)
  }

  /** A stronger hand never gets weaker advice when facing a bet the stack
      covers: if a probability already calls or raises, a higher one does too. */
  lemma {:induction false} StrongerHandKeepsPlaying(w1: real, w2: real, potSize: real, amountToCall: real, stackSize: real)
    requires w1 <= w2
    requires GetRecommendation(w1, potSize, amountToCall, stackSize).key in {Call, Raise, AllIn}
    ensures GetRecommendation(w2, potSize, amountToCall, stackSize).key in {Call, Raise, AllIn}
  {
    var r1 := GetRecommendation(w1, potSize, amountToCall, stackSize);
    if r1.key == Call || (amountToCall != 0.0 && amountToCall >= EffectiveStack(stackSize)) {
      assert BeatsPotOdds(w1, potSize, amountToCall);
      assert BeatsPotOdds(w2, potSize, amountToCall);
    }
  }

  /** Nothing to call: a bet is offered with 80% into a pot of 100, sized
      half the pot to the full pot. */
  lemma {:induction false} ExampleBet()
    ensures GetRecommendation(80.0, 100.0, 0.0, 500.0) == Sized(Bet, 50.0, 100.0)
  {
    assert Floor(100.0 * 0.5) == 50.0 && Floor(100.0 * 1.0) == 100.0;
  }

  /** 30% against a bet of 50 into 100: the required equity is 25, so call. */
  lemma {:induction false} ExampleCall()
    ensures GetRecommendation(30.0, 100.0, 50.0, 500.0) == Plain(Call)
  {
    assert (50.0 / 200.0) * 100.0 == 25.0;
  }

  /** 90% against a bet of 40 with a stack of 90: the minimum raise of 100
      exceeds the stack, so all-in. */
  lemma {:induction false} ExampleAllIn()
    ensures GetRecommendation(90.0, 100.0, 40.0, 90.0) == Plain(AllIn)
  {
    assert Floor(40.0 * 2.5) == 100.0;
  }

  /** 10% against a bet of 500 with a stack of 200: the call exceeds the
      stack and the required equity is about 45, so fold. */
  lemma {:induction false} ExampleFold()
    ensures GetRecommendation(10.0, 100.0, 500.0, 200.0) == Plain(Fold)
  {
    assert (500.0 / 1100.0) * 100.0 > 10.0;
  }
}
