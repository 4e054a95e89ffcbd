/** The constant tables: suits, ranks, rank values and the 52-card deck. */
module Constants {
  import opened Types
  import opened Seqs

  /** `SUITS`, in the order the deck is built. */
  const SUITS: seq<Suit> := [Spades, Hearts, Diamonds, Clubs]

  /** `RANKS`, from Ace down to Two. */
  const RANKS: seq<Rank> := [Ace, King, Queen, Jack, Ten, Nine, Eight, Seven, Six, Five, Four, Three, Two]

  /** `RANK_VALUES`: the numeric value of a rank, 2 … 14 with J = 11, Q = 12,
      K = 13 and A = 14. Every value fits one 4-bit slot. */
  function RankValue(r: Rank): (v: int)
    ensures 2 <= v <= 14 && v < 16
    ensures v == 11 <==> r == Jack
    ensures v == 12 <==> r == Queen
    ensures v == 13 <==> r == King
    ensures v == 14 <==> r == Ace
  {
    match r
    case Two => 2
    case Three => 3
    case Four => 4
    case Five => 5
    case Six => 6
    case Seven => 7
    case Eight => 8
    case Nine => 9
    case Ten => 10
    case Jack => 11
    case Queen => 12
    case King => 13
    case Ace => 14
  }

  /** `RANK_VALUES` is injective, so a rank and its value determine each other. */
  lemma {:induction false} RankValueInjective(a: Rank, b: Rank)
    ensures RankValue(a) == RankValue(b) <==> a == b
  {
  }

  /** `RANKS` lists all 13 ranks in strictly decreasing value, starting at 14. */
  lemma {:induction false} RanksDescending()
    ensures |RANKS| == 13
    ensures forall i :: 0 <= i < 13 ==> RankValue(RANKS[i]) == 14 - i
    ensures forall i, j :: 0 <= i < j < |RANKS| ==> RankValue(RANKS[i]) > RankValue(RANKS[j])
    ensures forall r: Rank :: r in RANKS
  {
    forall r: Rank ensures r in RANKS {
      assert RANKS[14 - RankValue(r)] == r;
    }
  }

  /** `RANKS.map(rank => ({ suit, rank }))`: the thirteen cards of one suit. */
  function SuitRow(suit: Suit): (row: seq<Card>)
    ensures |row| == |RANKS|
    ensures forall j :: 0 <= j < |RANKS| ==> row[j] == Card(suit, RANKS[j])
  {
    seq(|RANKS|, j requires 0 <= j < |RANKS| => Card(suit, RANKS[j]))
  }

  /** `suits.flatMap(SuitRow)`. */
  function FlatMapRows(suits: seq<Suit>): (deck: seq<Card>)
  {
    if suits == [] then [] else SuitRow(suits[0]) + FlatMapRows(suits[1..])
  }

  /** `FULL_DECK`. */
  const FULL_DECK: seq<Card> := FlatMapRows(SUITS)

  /** Position `i` of a flat-mapped deck holds suit `i / 13` and rank `i % 13`. */
  lemma {:induction false} FlatMapRowsIndex(suits: seq<Suit>)
    ensures |FlatMapRows(suits)| == 13 * |suits|
    ensures forall i :: 0 <= i < 13 * |suits| ==>
      FlatMapRows(suits)[i] == Card(suits[i / 13], RANKS[i % 13])
  {
    if suits != [] {
      FlatMapRowsIndex(suits[1..]);
      var rest := FlatMapRows(suits[1..]);
      forall i | 13 <= i < 13 * |suits|
        ensures FlatMapRows(suits)[i] == Card(suits[i / 13], RANKS[i % 13])
      {
        assert FlatMapRows(suits)[i] == rest[i - 13];
        assert (i - 13) / 13 == i / 13 - 1 && (i - 13) % 13 == i % 13;
      }
    }
  }

  /** `FULL_DECK` is suit-major: ♠ A…2, then ♥, ♦, ♣, each A…2. */
  lemma {:induction false} FullDeckLayout()
    ensures |FULL_DECK| == 52
    ensures forall i :: 0 <= i < 52 ==> FULL_DECK[i] == Card(SUITS[i / 13], RANKS[i % 13])
  {
    FlatMapRowsIndex(SUITS);
  }

  /** `FULL_DECK` holds every (suit, rank) pair exactly once. */
  lemma {:induction false} FullDeckComplete()
    ensures |FULL_DECK| == 52
    ensures forall c: Card :: c in FULL_DECK
    ensures NoDup(FULL_DECK)
  {
    FullDeckLayout();
    RanksDescending();
    forall c: Card ensures c in FULL_DECK {
      var s :| 0 <= s < 4 && SUITS[s] == c.suit;
      var r := 14 - RankValue(c.rank);
      assert RANKS[r] == c.rank;
      assert (13 * s + r) / 13 == s && (13 * s + r) % 13 == r;
      assert FULL_DECK[13 * s + r] == c;
    }
    forall i, j | 0 <= i < j < 52 ensures FULL_DECK[i] != FULL_DECK[j] {
      if i / 13 == j / 13 {
        assert i % 13 != j % 13;
        RanksDescending();
      }
    }
  }
}
