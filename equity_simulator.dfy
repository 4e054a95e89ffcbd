/** `calculateWinProbability`: a Monte-Carlo estimate of the player's equity
    against one random opponent hand. The random shuffles are inputs here:
    each playout receives its own ordering of the remaining deck. */
module EquitySimulator {
  import opened Types
  import opened Seqs
  import opened Constants
  import opened HandEvaluator
  import opened BestHand

  // ---------------------------------------------------------------------
  // The remaining deck
  // ---------------------------------------------------------------------

  /** The filter's test: no known card has the same rank and suit. */
  function Unknown(known: seq<Card>): Card -> bool {
    c => c !in known
  }

  function Known(known: seq<Card>): Card -> bool {
    c => c in known
  }

  /** `FULL_DECK.filter(...)`: the deck without the known cards. It holds
      exactly the cards not known, once each, in `FULL_DECK` order. */
  function RemainingDeck(known: seq<Card>): (deck: seq<Card>)
    ensures forall c :: c in deck <==> c !in known
    ensures NoDup(deck)
    ensures IsSubseq(deck, FULL_DECK)
  {
    var deck := Filter(FULL_DECK, Unknown(known));
    FullDeckComplete();
    FilterNoDup(FULL_DECK, Unknown(known));
    FilterIsSubseq(FULL_DECK, Unknown(known));
    assert forall c :: c !in known ==> c in deck by {
      forall c | c !in known ensures c in deck {
        assert c in FULL_DECK;
        var i :| 0 <= i < |FULL_DECK| && FULL_DECK[i] == c;
        assert Unknown(known)(FULL_DECK[i]);
      }
    }
    deck
  }

  /** Each known card removes at most one card from the deck, and exactly
      one when the known cards are distinct. */
  lemma {:induction false} RemainingDeckSize(known: seq<Card>)
    ensures |RemainingDeck(known)| >= 52 - |known|
    ensures NoDup(known) ==> |RemainingDeck(known)| == 52 - |known|
  {
    FullDeckComplete();
    var removed := Filter(FULL_DECK, Known(known));
    FilterSplit(FULL_DECK, Unknown(known), Known(known));
    FilterNoDup(FULL_DECK, Known(known));
    NoDupSubsetLength(removed, known);
    if NoDup(known) {
      forall i | 0 <= i < |known| ensures known[i] in removed {
        assert known[i] in FULL_DECK;
        var j :| 0 <= j < |FULL_DECK| && FULL_DECK[j] == known[i];
        assert Known(known)(FULL_DECK[j]);
      }
      NoDupSubsetLength(known, removed);
    }
  }

  /** The deck is too small only when more than 45 cards are known, so the
      fallback is never taken for two hole cards and a board of at most five. */
  lemma {:induction false} NoFallbackForSevenKnown(playerCards: seq<Card>, tableCards: seq<Card>)
    requires |playerCards| <= 2 && |tableCards| <= 5
    ensures |RemainingDeck(playerCards + tableCards)| >= 2 + 5 - |tableCards|
  {
    RemainingDeckSize(playerCards + tableCards);
  }

  // ---------------------------------------------------------------------
  // One playout
  // ---------------------------------------------------------------------

  /** `shuffledDeck.slice(0, 2)`. */
  function OpponentCards(shuffled: seq<Card>): (cards: seq<Card>)
    requires |shuffled| >= 2
    ensures |cards| == 2
  {
    shuffled[..2]
  }

  /** `[...tableCards, ...shuffledDeck.slice(2, 2 + 5 - |tableCards|)]`: the
      board completed to five cards. */
  function FinalTable(tableCards: seq<Card>, shuffled: seq<Card>): (board: seq<Card>)
    requires |tableCards| <= 5 && |shuffled| >= 2 + 5 - |tableCards|
    ensures |board| == 5
    ensures board[..|tableCards|] == tableCards
  {
    tableCards + shuffled[2..2 + 5 - |tableCards|]
  }

  /** The share of the pot of the first hand: 1 for a win, ½ for a split pot,
      0 for a loss. */
  function Showdown(player: HandResult, opponent: HandResult): (score: real)
    ensures 0.0 <= score <= 1.0
    ensures score == 1.0 <==> player.value > opponent.value
    ensures score == 0.0 <==> player.value < opponent.value
    ensures score == 0.5 <==> player.value == opponent.value
  {
    if player.value > opponent.value then 1.0
    else if player.value == opponent.value then 0.5
    else 0.0
  }

  /** The pot is always shared out entirely: the two seats' scores add to 1. */
  lemma {:induction false} ShowdownComplementary(a: HandResult, b: HandResult)
    ensures Showdown(a, b) + Showdown(b, a) == 1.0
  {
    if a.value > b.value {
      assert Showdown(b, a) == 0.0;
    } else if a.value < b.value {
      assert Showdown(a, b) == 0.0;
    }
  }

  /** The score of one playout dealt from `shuffled`. */
  function PlayoutScore(playerCards: seq<Card>, tableCards: seq<Card>, shuffled: seq<Card>): (score: real)
    requires |tableCards| <= 5 && |shuffled| >= 2 + 5 - |tableCards|
    ensures 0.0 <= score <= 1.0
  {
    var finalTable := FinalTable(tableCards, shuffled);
    Showdown(BestHandOf(playerCards + finalTable), BestHandOf(OpponentCards(shuffled) + finalTable))
  }

  /** The cards a playout deals: the opponent's two and the missing board cards. */
  function Dealt(tableCards: seq<Card>, shuffled: seq<Card>): seq<Card>
    requires |tableCards| <= 5 && |shuffled| >= 2 + 5 - |tableCards|
  {
    shuffled[..2 + 5 - |tableCards|]
  }

  /** Dealing from any ordering of the remaining deck gives distinct cards,
      none of them known; so with distinct known cards both seven-card hands
      are free of duplicates. */
  lemma {:induction false} DealtCardsDistinct(playerCards: seq<Card>, tableCards: seq<Card>, shuffled: seq<Card>)
    requires |tableCards| <= 5 && |shuffled| >= 2 + 5 - |tableCards|
    requires multiset(shuffled) == multiset(RemainingDeck(playerCards + tableCards))
    ensures NoDup(Dealt(tableCards, shuffled))
    ensures forall c :: c in Dealt(tableCards, shuffled) ==> c !in playerCards && c !in tableCards
    ensures NoDup(playerCards + tableCards) ==>
      NoDup(playerCards + FinalTable(tableCards, shuffled))
      && NoDup(OpponentCards(shuffled) + FinalTable(tableCards, shuffled))
  {
    var known := playerCards + tableCards;
    var n := 2 + 5 - |tableCards|;
    var dealt := Dealt(tableCards, shuffled);
    NoDupPermutation(shuffled, RemainingDeck(known));
    NoDupSlice(shuffled, 0, n);
    forall c | c in dealt ensures c !in playerCards && c !in tableCards {
      assert c in multiset(shuffled);
    }
    if NoDup(known) {
      var rest := shuffled[2..n];
      var opponent := OpponentCards(shuffled);
      assert dealt == opponent + rest;
      NoDupSlice(shuffled, 2, n);
      NoDupSlice(shuffled, 0, 2);
      NoDupSlice(known, 0, |playerCards|);
      NoDupSlice(known, |playerCards|, |known|);
      assert known[..|playerCards|] == playerCards && known[|playerCards|..] == tableCards;
      forall c | c in tableCards ensures c !in playerCards {
        var i :| 0 <= i < |tableCards| && tableCards[i] == c;
        assert known[|playerCards| + i] == c;
        forall j | 0 <= j < |playerCards| ensures playerCards[j] != c {
          assert known[j] == playerCards[j];
        }
      }
      forall c | c in rest ensures c in dealt {
        var i :| 0 <= i < |rest| && rest[i] == c;
        assert dealt[2 + i] == c;
      }
      forall c | c in opponent ensures c in dealt && c !in rest {
        var i :| 0 <= i < 2 && opponent[i] == c;
        assert dealt[i] == c;
        forall j | 0 <= j < |rest| ensures rest[j] != c {
          assert dealt[2 + j] == rest[j];
        }
      }
      NoDupConcat(tableCards, rest);
      var finalTable := FinalTable(tableCards, shuffled);
      assert finalTable == tableCards + rest;
      NoDupConcat(playerCards, finalTable);
      NoDupConcat(opponent, finalTable);
    }
  }

  // ---------------------------------------------------------------------
  // The simulation
  // ---------------------------------------------------------------------

  /** Every shuffle is an ordering of the remaining deck. */
  predicate AreShuffles(shuffles: seq<seq<Card>>, deck: seq<Card>) {
    forall i :: 0 <= i < |shuffles| ==> multiset(shuffles[i]) == multiset(deck)
  }

  /** Every shuffle is long enough to deal a playout. */
  predicate LongEnough(shuffles: seq<seq<Card>>, tableCards: seq<Card>) {
    forall i :: 0 <= i < |shuffles| ==> |shuffles[i]| >= 2 + 5 - |tableCards|
  }

  /** The score of every playout, in order. */
  function Scores(playerCards: seq<Card>, tableCards: seq<Card>, shuffles: seq<seq<Card>>): (scores: seq<real>)
    requires |tableCards| <= 5 && LongEnough(shuffles, tableCards)
    ensures |scores| == |shuffles|
    ensures forall i :: 0 <= i < |shuffles| ==> scores[i] == PlayoutScore(playerCards, tableCards, shuffles[i])
  {
    seq(|shuffles|, i requires 0 <= i < |shuffles| => PlayoutScore(playerCards, tableCards, shuffles[i]))
  }

  /** The sum of the scores, added up from the first. */
  function Sum(scores: seq<real>): real {
    if scores == [] then 0.0 else Sum(scores[..|scores| - 1]) + scores[|scores| - 1]
  }

  /** Scores between 0 and 1 sum to between 0 and their number; scores all 1
      sum to their number, scores all 0 to 0. */
  lemma {:induction false} SumBounds(scores: seq<real>)
    requires forall i :: 0 <= i < |scores| ==> 0.0 <= scores[i] <= 1.0
    ensures 0.0 <= Sum(scores) <= |scores| as real
    ensures (forall i :: 0 <= i < |scores| ==> scores[i] == 1.0) ==> Sum(scores) == |scores| as real
    ensures (forall i :: 0 <= i < |scores| ==> scores[i] == 0.0) ==> Sum(scores) == 0.0
  {
    if scores != [] {
      var init := scores[..|scores| - 1];
      assert forall i :: 0 <= i < |init| ==> init[i] == scores[i];
      SumBounds(init);
    }
  }

  /** `wins` after the playouts dealt from `shuffles`. */
  function Wins(playerCards: seq<Card>, tableCards: seq<Card>, shuffles: seq<seq<Card>>): (wins: real)
    requires |tableCards| <= 5 && LongEnough(shuffles, tableCards)
    ensures 0.0 <= wins <= |shuffles| as real
  {
    var scores := Scores(playerCards, tableCards, shuffles);
    SumBounds(scores);
    Sum(scores)
  }

  /** `(wins / numSimulations) * 100`: a share of at most `n` out of `n`
      playouts is a percentage, all of them 100 and none of them 0. */
  function Percentage(wins: real, n: int): (p: real)
    requires 0.0 <= wins <= n as real && n > 0
    ensures 0.0 <= p <= 100.0
    ensures wins == n as real ==> p == 100.0
    ensures wins == 0.0 ==> p == 0.0
  {
    assert wins / n as real <= 1.0;
    (wins / n as real) * 100.0
  }

  /** What `calculateWinProbability` returns: 50 when the deck cannot complete
      a playout, otherwise the average playout score as a percentage. */
  function WinProbability(playerCards: seq<Card>, tableCards: seq<Card>, shuffles: seq<seq<Card>>): (p: real)
    requires |tableCards| <= 5 && |shuffles| > 0
    requires AreShuffles(shuffles, RemainingDeck(playerCards + tableCards))
    ensures 0.0 <= p <= 100.0
    ensures |RemainingDeck(playerCards + tableCards)| < 2 + 5 - |tableCards| ==> p == 50.0
  {
    var deck := RemainingDeck(playerCards + tableCards);
    if |deck| < 2 + 5 - |tableCards| then 50.0
    else
      ShufflesLength(shuffles, deck, tableCards);
      Percentage(Wins(playerCards, tableCards, shuffles), |shuffles|)
  }

  lemma {:induction false} ShufflesLength(shuffles: seq<seq<Card>>, deck: seq<Card>, tableCards: seq<Card>)
    requires AreShuffles(shuffles, deck) && |deck| >= 2 + 5 - |tableCards|
    ensures LongEnough(shuffles, tableCards)
  {
    forall i | 0 <= i < |shuffles| ensures |shuffles[i]| >= 2 + 5 - |tableCards| {
      assert |shuffles[i]| == |multiset(shuffles[i])| == |multiset(deck)| == |deck|;
    }
  }

  /** Winning every playout gives 100. */
  lemma {:induction false} AllWonIsHundred(playerCards: seq<Card>, tableCards: seq<Card>, shuffles: seq<seq<Card>>)
    requires |tableCards| <= 5 && LongEnough(shuffles, tableCards) && |shuffles| > 0
    requires forall i :: 0 <= i < |shuffles| ==> PlayoutScore(playerCards, tableCards, shuffles[i]) == 1.0
    ensures Percentage(Wins(playerCards, tableCards, shuffles), |shuffles|) == 100.0
  {
    SumBounds(Scores(playerCards, tableCards, shuffles));
  }

  /** Losing every playout gives 0. */
  lemma {:induction false} AllLostIsZero(playerCards: seq<Card>, tableCards: seq<Card>, shuffles: seq<seq<Card>>)
    requires |tableCards| <= 5 && LongEnough(shuffles, tableCards) && |shuffles| > 0
    requires forall i :: 0 <= i < |shuffles| ==> PlayoutScore(playerCards, tableCards, shuffles[i]) == 0.0
    ensures Percentage(Wins(playerCards, tableCards, shuffles), |shuffles|) == 0.0
  {
    SumBounds(Scores(playerCards, tableCards, shuffles));
  }

  /** The playout loop of `calculateWinProbability`. */
  method CalculateWinProbability(playerCards: seq<Card>, tableCards: seq<Card>, shuffles: seq<seq<Card>>)
    returns (p: real)
    requires |tableCards| <= 5 && |shuffles| > 0
    requires AreShuffles(shuffles, RemainingDeck(playerCards + tableCards))
    ensures p == WinProbability(playerCards, tableCards, shuffles)
  {
    var knownCards := playerCards + tableCards;
    var deck := RemainingDeck(knownCards);
    if |deck| < 2 + 5 - |tableCards| {
      return 50.0;
    }
    ShufflesLength(shuffles, deck, tableCards);
    p := Simulate(playerCards, tableCards, shuffles);
  }

  /** The playouts and the final percentage, once the deck is large enough. */
  method Simulate(playerCards: seq<Card>, tableCards: seq<Card>, shuffles: seq<seq<Card>>) returns (p: real)
    requires |tableCards| <= 5 && LongEnough(shuffles, tableCards) && |shuffles| > 0
    ensures p == Percentage(Wins(playerCards, tableCards, shuffles), |shuffles|)
  {
    var numSimulations := |shuffles|;
    var wins := Tally(playerCards, tableCards, shuffles, Scores(playerCards, tableCards, shuffles));
    assert wins == Wins(playerCards, tableCards, shuffles);
    p := (wins / numSimulations as real) * 100.0;
  }

  /** The loop over the playouts; `scores` names the score of each. */
  method Tally(playerCards: seq<Card>, tableCards: seq<Card>, shuffles: seq<seq<Card>>, ghost scores: seq<real>)
    returns (wins: real)
    requires |tableCards| <= 5 && LongEnough(shuffles, tableCards)
    requires |scores| == |shuffles|
    requires forall i :: 0 <= i < |shuffles| ==> scores[i] == PlayoutScore(playerCards, tableCards, shuffles[i])
    ensures wins == Sum(scores)
  {
    wins := 0.0;
    for i := 0 to |shuffles|
      invariant wins == Sum(scores[..i])
    {
      wins := AddPlayout(playerCards, tableCards, shuffles, scores, i, wins);
    }
    assert scores[..|shuffles|] == scores;
  }

  /** One pass of the loop: play out shuffle `i` and add its score to `wins`. */
  method AddPlayout(playerCards: seq<Card>, tableCards: seq<Card>, shuffles: seq<seq<Card>>, ghost scores: seq<real>,
                    i: int, wins: real)
    returns (total: real)
    requires |tableCards| <= 5 && 0 <= i < |shuffles| == |scores|
    requires |shuffles[i]| >= 2 + 5 - |tableCards|
    requires scores[i] == PlayoutScore(playerCards, tableCards, shuffles[i])
    requires wins == Sum(scores[..i])
    ensures total == Sum(scores[..i + 1])
  {
    var score := Playout(playerCards, tableCards, shuffles[i]);
    SumStep(scores, i);
    total := wins + score;
  }

  /** One more score adds to the running sum. */
  lemma {:induction false} SumStep(scores: seq<real>, i: int)
    requires 0 <= i < |scores|
    ensures Sum(scores[..i + 1]) == Sum(scores[..i]) + scores[i]
  {
    assert scores[..i + 1][..i] == scores[..i];
  }

  /** One iteration of the playout loop. */
  method Playout(playerCards: seq<Card>, tableCards: seq<Card>, shuffledDeck: seq<Card>) returns (score: real)
    requires |tableCards| <= 5 && |shuffledDeck| >= 2 + 5 - |tableCards|
    ensures score == PlayoutScore(playerCards, tableCards, shuffledDeck)
  {
    var opponentCards := shuffledDeck[..2];
    var numRemainingTableCards := 5 - |tableCards|;
    var remainingTableCards := shuffledDeck[2..2 + numRemainingTableCards];
    var finalTable := tableCards + remainingTableCards;
    var playerBestHand := EvaluateHand(playerCards + finalTable);
    var opponentBestHand := EvaluateHand(opponentCards + finalTable);
    if playerBestHand.value > opponentBestHand.value {
      score := 1.0;
    } else if playerBestHand.value == opponentBestHand.value {
      score := 0.5;
    } else {
      score := 0.0;
    }
  }
}
