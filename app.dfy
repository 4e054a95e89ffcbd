/** The card-slot state of the app: two hole-card slots and five board
    slots, filled by selecting cards, emptied by reset, and read by the
    analysis, which needs exactly two hole cards. */
module App {
  import opened Types
  import opened Seqs
  import opened BestHand
  import opened EquitySimulator
  import opened Recommender

  // ---------------------------------------------------------------------
  // Slot arrays as values
  // ---------------------------------------------------------------------

  /** `slots.filter(Boolean)`: the selected cards, in slot order. */
  function Filled(slots: seq<Option<Card>>): (cards: seq<Card>)
    ensures |cards| <= |slots|
    ensures forall c :: c in cards <==> Some(c) in slots
  {
    if slots == [] then []
    else
      assert forall x :: x in slots <==> x == slots[0] || x in slots[1..];
      (if slots[0].Some? then [slots[0].value] else []) + Filled(slots[1..])
  }

  /** No card occupies two slots. */
  predicate DistinctSlots(slots: seq<Option<Card>>) {
    forall i, j :: 0 <= i < j < |slots| && slots[i].Some? ==> slots[i] != slots[j]
  }

  /** Distinct slots hold a duplicate-free list of cards. */
  lemma {:induction false} FilledNoDup(slots: seq<Option<Card>>)
    requires DistinctSlots(slots)
    ensures NoDup(Filled(slots))
  {
    if slots != [] {
      var rest := slots[1..];
      assert DistinctSlots(rest) by {
        forall i, j | 0 <= i < j < |rest| && rest[i].Some? ensures rest[i] != rest[j] {
          assert rest[i] == slots[i + 1] && rest[j] == slots[j + 1];
        }
      }
      FilledNoDup(rest);
      if slots[0].Some? {
        forall k | 0 <= k < |rest| ensures rest[k] != slots[0] {
          assert rest[k] == slots[k + 1];
        }
        NoDupConcat([slots[0].value], Filled(rest));
      }
    }
  }

  /** Empty slots hold no cards. */
  lemma {:induction false} FilledNone(slots: seq<Option<Card>>)
    requires forall i :: 0 <= i < |slots| ==> slots[i] == None
    ensures Filled(slots) == []
  {
    if slots != [] {
      FilledNone(slots[1..]);
    }
  }

  /** Filtering two slot arrays one after the other is filtering their concatenation. */
  lemma {:induction false} FilledAppend(a: seq<Option<Card>>, b: seq<Option<Card>>)
    ensures Filled(a + b) == Filled(a) + Filled(b)
  {
    if a != [] {
      FilledAppend(a[1..], b);
      assert (a + b)[1..] == a[1..] + b;
    } else {
      assert a + b == b;
    }
  }

  /** `slots.indexOf(null)`: the first empty slot, or -1 when all are filled. */
  function IndexOfEmpty(slots: seq<Option<Card>>): (i: int)
    ensures -1 <= i < |slots|
    ensures i == -1 <==> None !in slots
    ensures 0 <= i ==> slots[i] == None && forall j :: 0 <= j < i ==> slots[j] != None
  {
    if slots == [] then -1
    else if slots[0] == None then 0
    else
      var k := IndexOfEmpty(slots[1..]);
      assert forall x :: x in slots <==> x == slots[0] || x in slots[1..];
      if k == -1 then -1 else k + 1
  }

  /** `prev.map(c => c && c.rank === card.rank && c.suit === card.suit ? null : c)`:
      the card leaves every slot it is in; every other slot is kept. */
  function ClearCard(slots: seq<Option<Card>>, card: Card): (r: seq<Option<Card>>)
    ensures |r| == |slots|
    ensures Some(card) !in r
    ensures forall i :: 0 <= i < |slots| && slots[i] != Some(card) ==> r[i] == slots[i]
    ensures forall i :: 0 <= i < |slots| ==> r[i] == slots[i] || r[i] == None
  {
    seq(|slots|, i requires 0 <= i < |slots| => if slots[i] == Some(card) then None else slots[i])
  }

  /** The two slot arrays. */
  datatype Slots = Slots(player: seq<Option<Card>>, table: seq<Option<Card>>)

  /** Two hole-card slots, five board slots, no card twice. */
  predicate ValidSlots(s: Slots) {
    |s.player| == 2 && |s.table| == 5 && DistinctSlots(s.player + s.table)
  }

  /** Every selected card. */
  function Selected(s: Slots): seq<Card> {
    Filled(s.player + s.table)
  }

  /** What `handleCardSelect(card)` makes of the slots: a selected card is
      cleared everywhere; otherwise the card goes into the first empty hole
      slot, else the first empty board slot, else nothing changes. */
  function Select(s: Slots, card: Card): Slots {
    if card in Selected(s) then Slots(ClearCard(s.player, card), ClearCard(s.table, card))
    else if IndexOfEmpty(s.player) != -1 then Slots(s.player[IndexOfEmpty(s.player) := Some(card)], s.table)
    else if IndexOfEmpty(s.table) != -1 then Slots(s.player, s.table[IndexOfEmpty(s.table) := Some(card)])
    else s
  }

  /** Clearing keeps slots distinct. */
  lemma {:induction false} ClearKeepsDistinct(s: Slots, card: Card)
    requires ValidSlots(s)
    ensures ValidSlots(Slots(ClearCard(s.player, card), ClearCard(s.table, card)))
  {
    var before := s.player + s.table;
    var after := ClearCard(s.player, card) + ClearCard(s.table, card);
    forall i | 0 <= i < |after| ensures after[i] == before[i] || after[i] == None {
      if i < 2 {
        assert after[i] == ClearCard(s.player, card)[i] && before[i] == s.player[i];
      } else {
        assert after[i] == ClearCard(s.table, card)[i - 2] && before[i] == s.table[i - 2];
      }
    }
  }

  /** Writing a card no slot holds into one slot keeps slots distinct. */
  lemma {:induction false} PlaceKeepsDistinct(slots: seq<Option<Card>>, k: int, card: Card)
    requires DistinctSlots(slots) && 0 <= k < |slots| && Some(card) !in slots
    ensures DistinctSlots(slots[k := Some(card)])
  {
    var after := slots[k := Some(card)];
    forall i, j | 0 <= i < j < |after| && after[i].Some? ensures after[i] != after[j] {
      if i == k {
        assert after[j] == slots[j];
      } else if j == k {
        assert after[i] == slots[i];
      }
    }
  }

  /** Every selection keeps the slots valid: seven slots, no card twice. */
  lemma {:induction false} SelectKeepsValid(s: Slots, card: Card)
    requires ValidSlots(s)
    ensures ValidSlots(Select(s, card))
  {
    if card in Selected(s) {
      ClearKeepsDistinct(s, card);
    } else if IndexOfEmpty(s.player) != -1 {
      var k := IndexOfEmpty(s.player);
      assert Some(card) !in s.player + s.table;
      PlaceKeepsDistinct(s.player + s.table, k, card);
      assert (s.player + s.table)[k := Some(card)] == s.player[k := Some(card)] + s.table;
    } else if IndexOfEmpty(s.table) != -1 {
      var k := IndexOfEmpty(s.table);
      assert Some(card) !in s.player + s.table;
      PlaceKeepsDistinct(s.player + s.table, 2 + k, card);
      assert (s.player + s.table)[2 + k := Some(card)] == s.player + s.table[k := Some(card)];
    }
  }

  /** Selecting a selected card deselects it and keeps every other selection. */
  lemma {:induction false} SelectToggles(s: Slots, card: Card)
    requires card in Selected(s)
    ensures card !in Selected(Select(s, card))
    ensures forall c :: c != card ==> (c in Selected(Select(s, card)) <==> c in Selected(s))
  {
    var t := Select(s, card);
    forall c | c != card ensures c in Selected(t) <==> c in Selected(s) {
      if Some(c) in s.player {
        var i :| 0 <= i < |s.player| && s.player[i] == Some(c);
        assert t.player[i] == Some(c);
      }
      if Some(c) in s.table {
        var i :| 0 <= i < |s.table| && s.table[i] == Some(c);
        assert t.table[i] == Some(c);
      }
      if Some(c) in t.player {
        var i :| 0 <= i < |t.player| && t.player[i] == Some(c);
        assert s.player[i] == Some(c);
      }
      if Some(c) in t.table {
        var i :| 0 <= i < |t.table| && t.table[i] == Some(c);
        assert s.table[i] == Some(c);
      }
    }
  }

  /** An unselected card goes into the first empty hole slot when there is
      one, leaving the board alone; otherwise into the first empty board slot. */
  lemma {:induction false} SelectPlaces(s: Slots, card: Card)
    requires card !in Selected(s)
    ensures IndexOfEmpty(s.player) != -1 ==>
      Select(s, card).table == s.table
      && Select(s, card).player[IndexOfEmpty(s.player)] == Some(card)
      && forall i :: 0 <= i < |s.player| && i != IndexOfEmpty(s.player) ==> Select(s, card).player[i] == s.player[i]
    ensures IndexOfEmpty(s.player) == -1 && IndexOfEmpty(s.table) != -1 ==>
      Select(s, card).player == s.player
      && Select(s, card).table[IndexOfEmpty(s.table)] == Some(card)
      && forall i :: 0 <= i < |s.table| && i != IndexOfEmpty(s.table) ==> Select(s, card).table[i] == s.table[i]
    ensures None !in s.player && None !in s.table ==> Select(s, card) == s
  {
  }

  /** With valid slots the selected cards are distinct and at most seven. */
  lemma {:induction false} SelectedDistinct(s: Slots)
    requires ValidSlots(s)
    ensures NoDup(Selected(s)) && |Selected(s)| <= 7
  {
    FilledNoDup(s.player + s.table);
  }

  /** All seven slots empty. */
  function EmptySlots(): (s: Slots)
    ensures ValidSlots(s) && Selected(s) == []
  {
    var s := Slots([None, None], [None, None, None, None, None]);
    FilledNone(s.player + s.table);
    s
  }

  // ---------------------------------------------------------------------
  // The analysis
  // ---------------------------------------------------------------------

  /** The hand name shown: the best hand when at least five cards are known,
      `HIGH_CARD` otherwise. */
  function BestHandLabel(cards: seq<Card>): (rank: HandRank)
    ensures rank != FullHouse
    ensures |cards| < 5 ==> rank == HighCard
    ensures |cards| >= 5 ==> rank == BestHandOf(cards).rank
  {
    if |cards| >= 5 then
      BestHandAchieved(cards);
      BestHandOf(cards).rank
    else HighCard
  }

  /** The result `handleAnalyze` shows, or the error it sets. */
  datatype Analysis =
    | SelectTwoCardsError
    | Analyzed(winProbability: real, recommendation: RecommendationResult, bestHandName: HandRank)

  /** The shuffles a simulation over the known cards may receive: 2000
      orderings of the remaining deck. */
  predicate SimulationInput(s: Slots, shuffles: seq<seq<Card>>) {
    |shuffles| == 2000 && AreShuffles(shuffles, RemainingDeck(Filled(s.player) + Filled(s.table)))
  }

  /** What `handleAnalyze` produces from the slots and the parsed inputs. */
  function AnalysisOf(s: Slots, shuffles: seq<seq<Card>>, potSize: real, amountToCall: real, stackSize: real)
    : (a: Analysis)
    requires ValidSlots(s) && SimulationInput(s, shuffles)
    ensures a == SelectTwoCardsError <==> |Filled(s.player)| != 2
    ensures a.Analyzed? ==> 0.0 <= a.winProbability <= 100.0
  {
    var playerCards := Filled(s.player);
    if |playerCards| != 2 then SelectTwoCardsError
    else
      var tableCards := Filled(s.table);
      var winProbability := WinProbability(playerCards, tableCards, shuffles);
      Analyzed(winProbability, GetRecommendation(winProbability, potSize, amountToCall, stackSize),
               BestHandLabel(playerCards + tableCards))
  }

  /** With valid slots and two hole cards the known cards are distinct and
      at most seven, so the simulation never falls back to 50 and every
      playout deals seven-card hands without duplicates. */
  lemma {:induction false} AnalysisInputsSound(s: Slots)
    requires ValidSlots(s) && |Filled(s.player)| == 2
    ensures NoDup(Filled(s.player) + Filled(s.table))
    ensures |Filled(s.player) + Filled(s.table)| <= 7
    ensures |RemainingDeck(Filled(s.player) + Filled(s.table))| >= 2 + 5 - |Filled(s.table)|
  {
    FilledAppend(s.player, s.table);
    FilledNoDup(s.player + s.table);
    NoFallbackForSevenKnown(Filled(s.player), Filled(s.table));
  }

  // ---------------------------------------------------------------------
  // The component state
  // ---------------------------------------------------------------------

  /** The `playerCards` and `tableCards` state of the app. */
  class CardSlots {
    var playerCards: seq<Option<Card>>
    var tableCards: seq<Option<Card>>

    ghost predicate Valid()
      reads this
    {
      ValidSlots(Slots(playerCards, tableCards))
    }

    /** `useState([null, null])` and `useState([null, null, null, null, null])`. */
    constructor()
      ensures Valid()
      ensures Slots(playerCards, tableCards) == EmptySlots()
    {
      playerCards := [None, None];
      tableCards := [None, None, None, None, None];
    }

    /** `allSelectedCards`. */
    function AllSelectedCards(): (cards: seq<Card>)
      reads this
      ensures cards == Selected(Slots(playerCards, tableCards))
      ensures forall c :: c in cards <==> Some(c) in playerCards || Some(c) in tableCards
    {
      Filled(playerCards + tableCards)
    }

    /** `handleCardSelect(card)`. */
    method HandleCardSelect(card: Card)
      requires Valid()
      modifies this
      ensures Valid()
      ensures Slots(playerCards, tableCards) == Select(old(Slots(playerCards, tableCards)), card)
    {
      SelectKeepsValid(Slots(playerCards, tableCards), card);
      if card in AllSelectedCards() {
        playerCards := ClearCard(playerCards, card);
        tableCards := ClearCard(tableCards, card);
        return;
      }
      var newPlayerCards := playerCards;
      var playerCardIndex := IndexOfEmpty(newPlayerCards);
      if playerCardIndex != -1 {
        newPlayerCards := newPlayerCards[playerCardIndex := Some(card)];
        playerCards := newPlayerCards;
        return;
      }
      var newTableCards := tableCards;
      var tableCardIndex := IndexOfEmpty(newTableCards);
      if tableCardIndex != -1 {
        newTableCards := newTableCards[tableCardIndex := Some(card)];
        tableCards := newTableCards;
      }
    }

    /** `handleReset`, as far as the slots go. */
    method HandleReset()
      modifies this
      ensures Valid()
      ensures Slots(playerCards, tableCards) == EmptySlots()
    {
      playerCards := [None, None];
      tableCards := [None, None, None, None, None];
    }

    /** `isAnalyzeDisabled`. */
    function IsAnalyzeDisabled(isLoading: bool): (disabled: bool)
      reads this
      ensures !disabled <==> |Filled(playerCards)| == 2 && !isLoading
    {
      |Filled(playerCards)| != 2 || isLoading
    }

    /** The button guards `handleAnalyze`: when it is enabled the analysis
        runs, and when it is disabled while no analysis is running, the
        analysis would end in the two-cards error. */
    lemma {:induction false} AnalyzeGuard(isLoading: bool, shuffles: seq<seq<Card>>,
                                          potSize: real, amountToCall: real, stackSize: real)
      requires Valid() && SimulationInput(Slots(playerCards, tableCards), shuffles)
      ensures !IsAnalyzeDisabled(isLoading) ==>
        !isLoading && AnalysisOf(Slots(playerCards, tableCards), shuffles, potSize, amountToCall, stackSize).Analyzed?
      ensures IsAnalyzeDisabled(isLoading) && !isLoading ==>
        AnalysisOf(Slots(playerCards, tableCards), shuffles, potSize, amountToCall, stackSize) == SelectTwoCardsError
    {
    }

    /** `handleAnalyze`, with the playouts' shuffles as input and the three
        amounts already parsed. */
    method HandleAnalyze(shuffles: seq<seq<Card>>, potSize: real, amountToCall: real, stackSize: real)
      returns (a: Analysis)
      requires Valid() && SimulationInput(Slots(playerCards, tableCards), shuffles)
      ensures a == AnalysisOf(Slots(playerCards, tableCards), shuffles, potSize, amountToCall, stackSize)
    {
      var finalPlayerCards := Filled(playerCards);
      if |finalPlayerCards| != 2 {
        return SelectTwoCardsError;
      }
      var finalTableCards := Filled(tableCards);
      var winProbability := CalculateWinProbability(finalPlayerCards, finalTableCards, shuffles);
      var recommendationResult := GetRecommendation(winProbability, potSize, amountToCall, stackSize);
      var currentFullHand := finalPlayerCards + finalTableCards;
      var bestHandName := HighCard;
      if |currentFullHand| >= 5 {
        var bestHand := EvaluateHand(currentFullHand);
        bestHandName := bestHand.rank;
      }
      a := Analyzed(winProbability, recommendationResult, bestHandName);
    }
  }
}
