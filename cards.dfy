/**
 * Cards and the deck (evaluators.py, "CARD AND DECK MANAGEMENT").
 *
 * A rank is its index in RANKS = 2, 3, ..., 10, J, Q, K, A (so 0 is a deuce
 * and 12 an ace, the same number RANK_VALUES gives it); a suit is its index
 * in SUITS = hearts, diamonds, clubs, spades.
 */
module Cards {
  type Rank = r: int | 0 <= r < 13
  type Suit = s: int | 0 <= s < 4

  datatype Card = Card(rank: Rank, suit: Suit)

  const Deuce: Rank := 0
  const Five: Rank := 3
  const Seven: Rank := 5
  const Eight: Rank := 6
  const Queen: Rank := 10
  const Ace: Rank := 12

  const Hearts: Suit := 0
  const Diamonds: Suit := 1
  const Clubs: Suit := 2
  const Spades: Suit := 3

  /** The unshuffled deck: every rank of hearts, then of diamonds, clubs, spades. */
  function CreateDeck(): (deck: seq<Card>)
    ensures |deck| == 52
    ensures forall s: Suit, r: Rank :: deck[13 * s + r] == Card(r, s)
  {
    seq(52, i requires 0 <= i < 52 => Card(i % 13, i / 13))
  }

  /** The deck holds every card exactly once. */
  lemma DeckHasEveryCardOnce()
    ensures forall c: Card :: c in CreateDeck()
    ensures forall i, j :: 0 <= i < j < 52 ==> CreateDeck()[i] != CreateDeck()[j]
  {
    var deck := CreateDeck();
    forall c: Card ensures c in deck {
      assert deck[13 * c.suit + c.rank] == c;
    }
    forall i, j | 0 <= i < j < 52 ensures deck[i] != deck[j] {
      assert deck[i] == Card(i % 13, i / 13) && deck[j] == Card(j % 13, j / 13);
    }
  }

  /** No card occurs twice. */
  ghost predicate Distinct(cards: seq<Card>)
  {
    forall i, j :: 0 <= i < j < |cards| ==> cards[i] != cards[j]
  }
}
