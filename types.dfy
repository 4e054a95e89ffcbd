/** The value types of the poker assistant: cards, hand categories, hand
    results and betting recommendations. */
module Types {

  /** An absent optional field (`undefined` / `null` in the original). */
  datatype Option<T> = None | Some(value: T)

  /** The four suits ♠ ♥ ♦ ♣; only equality matters. */
  datatype Suit = Spades | Hearts | Diamonds | Clubs

  /** The thirteen ranks '2' … '10', 'J', 'Q', 'K', 'A'. */
  datatype Rank = Two | Three | Four | Five | Six | Seven | Eight | Nine | Ten
                | Jack | Queen | King | Ace

  /** A card is exactly a (suit, rank) pair; datatype equality compares both
      fields, as the original's `c.rank === card.rank && c.suit === card.suit`. */
  datatype Card = Card(suit: Suit, rank: Rank)

  /** Hand categories in the enum's declaration order. */
  datatype HandRank =
    | HighCard | OnePair | TwoPair | ThreeOfAKind | Straight
    | Flush | FullHouse | FourOfAKind | StraightFlush | RoyalFlush

  /** The numeric value the enum gives each category (HIGH_CARD = 0 …
      ROYAL_FLUSH = 9): distinct categories get distinct ordinals, weakest
      lowest. */
  function Ordinal(h: HandRank): (n: nat)
    ensures n <= 9
    ensures n == 0 <==> h == HighCard
    ensures n == 9 <==> h == RoyalFlush
  {
    match h
    case HighCard => 0
    case OnePair => 1
    case TwoPair => 2
    case ThreeOfAKind => 3
    case Straight => 4
    case Flush => 5
    case FullHouse => 6
    case FourOfAKind => 7
    case StraightFlush => 8
    case RoyalFlush => 9
  }

  /** The ordinal is injective: distinct categories have distinct values. */
  lemma {:induction false} OrdinalInjective(a: HandRank, b: HandRank)
    ensures Ordinal(a) == Ordinal(b) <==> a == b
  {
  }

  /** The result of evaluating a hand: its category and one comparison number. */
  datatype HandResult = HandResult(rank: HandRank, value: int)

  /** The six actions the recommendation engine can suggest. */
  datatype Recommendation = Raise | Call | Fold | Check | Bet | AllIn

  /** An action with an optional sizing range. */
  datatype RecommendationResult =
    RecommendationResult(key: Recommendation, amountMin: Option<real>, amountMax: Option<real>)
}
