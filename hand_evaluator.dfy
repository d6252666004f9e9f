/**
 * Five-card hand evaluation (evaluators.py:64-154): flush and straight
 * detection and the eleven hand categories, from High Card (1) up to Five
 * of a Kind (11), each with the tiebreakers that order hands of the same
 * category.
 */
module HandEvaluator {
  import opened Cards
  import opened Wrappers
  import opened RankCounts

  /** A hand's value, `(hand_rank, tiebreakers)`; its name is `CategoryName(category)`. */
  datatype HandValue = HandValue(category: int, tiebreakers: seq<int>)

  const HighCard := 1
  const OnePair := 2
  const TwoPair := 3
  const ThreeOfAKind := 4
  const Straight := 5
  const Flush := 6
  const FullHouse := 7
  const FourOfAKind := 8
  const StraightFlush := 9
  const RoyalFlush := 10
  const FiveOfAKind := 11

  function CategoryName(category: int): string
  {
    match category
    case 11 => "Five of a Kind"
    case 10 => "Royal Flush"
    case 9 => "Straight Flush"
    case 8 => "Four of a Kind"
    case 7 => "Full House"
    case 6 => "Flush"
    case 5 => "Straight"
    case 4 => "Three of a Kind"
    case 3 => "Two Pair"
    case 2 => "One Pair"
    case _ => "High Card"
  }

  /** How many tiebreakers a hand of each category carries. */
  function TiebreakerCount(category: int): nat
  {
    match category
    case 11 => 1
    case 10 => 1
    case 9 => 1
    case 8 => 2
    case 7 => 2
    case 6 => 5
    case 5 => 1
    case 4 => 3
    case 3 => 3
    case 2 => 4
    case _ => 5
  }

  /** The shape of every value `evaluate_five` produces. */
  ghost predicate WellFormed(h: HandValue)
  {
    && 1 <= h.category <= 11
    && |h.tiebreakers| == TiebreakerCount(h.category)
    && forall i :: 0 <= i < |h.tiebreakers| ==> 0 <= h.tiebreakers[i] < 13
  }

  // ---------------------------------------------------------------------------
  // is_flush
  // ---------------------------------------------------------------------------

  function Suits(cards: seq<Card>): set<Suit>
  {
    set c | c in cards :: c.suit
  }

  ghost predicate SameSuit(cards: seq<Card>)
  {
    |cards| > 0 && forall i :: 0 <= i < |cards| ==> cards[i].suit == cards[0].suit
  }

  /** `is_flush`: the cards show exactly one suit. */
  function IsFlush(cards: seq<Card>): (r: bool)
    ensures r <==> SameSuit(cards)
  {
    OneSuitIffSameSuit(cards);
    |Suits(cards)| == 1
  }

  lemma OneSuitIffSameSuit(cards: seq<Card>)
    ensures |Suits(cards)| == 1 <==> SameSuit(cards)
  {
    if SameSuit(cards) {
      assert cards[0] in cards;
      forall s | s in Suits(cards) ensures s == cards[0].suit {
        var c :| c in cards && c.suit == s;
        var i :| 0 <= i < |cards| && cards[i] == c;
      }
      assert Suits(cards) == {cards[0].suit};
    }
    if |Suits(cards)| == 1 {
      var s :| s in Suits(cards);
      var rest := Suits(cards) - {s};
      assert Suits(cards) == rest + {s};
      assert rest * {s} == {};
      assert |rest| == 0;
      assert Suits(cards) == {s};
      assert cards != [] by {
        var c :| c in cards && c.suit == s;
      }
      forall i | 0 <= i < |cards| ensures cards[i].suit == cards[0].suit {
        assert cards[i] in cards && cards[0] in cards;
        assert cards[i].suit in Suits(cards) && cards[0].suit in Suits(cards);
      }
    }
  }

  // ---------------------------------------------------------------------------
  // is_straight
  // ---------------------------------------------------------------------------

  /**
   * Rank `v` belongs to the five-rank run topped by `h`: `h - 4 .. h`, or,
   * for the wheel topped by the five (`h == 3`), deuce to five and the ace.
   */
  ghost predicate InRun(v: int, h: int)
  {
    h - 4 <= v <= h || (h == 3 && v == 12)
  }

  /** The ranks present are exactly the run topped by `h`. */
  ghost predicate RunOfFive(cards: seq<Card>, h: int)
  {
    3 <= h <= 12 && forall v: int :: 0 <= v < 13 ==> (RankCount(cards, v) > 0 <==> InRun(v, h))
  }

  /** `is_straight`: `Some(high)` for five distinct ranks in a run, the wheel counting as five-high. */
  function IsStraight(cards: seq<Card>): (r: Option<int>)
  {
    var values := DistinctRanks(cards);
    if |values| != 5 then None
    else if values[4] - values[0] == 4 then Some(values[4])
    else if values == [0, 1, 2, 3, 12] then Some(3)
    else None
  }

  /** A straight topped by `h` is reported exactly when the ranks present form that run. */
  lemma StraightIffRun(cards: seq<Card>, h: int)
    ensures IsStraight(cards) == Some(h) <==> RunOfFive(cards, h)
  {
    if IsStraight(cards) == Some(h) {
      StraightIsRun(cards);
    }
    if RunOfFive(cards, h) {
      RunIsStraight(cards, h);
    }
  }

  lemma StraightIsRun(cards: seq<Card>)
    requires IsStraight(cards).Some?
    ensures RunOfFive(cards, IsStraight(cards).value)
  {
    var values := DistinctRanks(cards);
    var h := IsStraight(cards).value;
    DistinctRanksIsSortedSet(cards);
    assert values[0] in values && values[4] in values;
    if values[4] - values[0] == 4 {
      assert values[0] < values[1] < values[2] < values[3] < values[4];
      assert values == [h - 4, h - 3, h - 2, h - 1, h];
    } else {
      assert values == [0, 1, 2, 3, 12];
    }
    forall v: int | 0 <= v < 13 ensures RankCount(cards, v) > 0 <==> InRun(v, h) {
      assert RankCount(cards, v) > 0 <==> v in values;
    }
  }

  lemma RunIsStraight(cards: seq<Card>, h: int)
    requires RunOfFive(cards, h)
    ensures IsStraight(cards) == Some(h)
  {
    var values := DistinctRanks(cards);
    DistinctRanksIsSortedSet(cards);
    var run := if h == 3 then [0, 1, 2, 3, 12] else [h - 4, h - 3, h - 2, h - 1, h];
    assert StrictlyIncreasing(run);
    forall x: int ensures x in run <==> x in values {
      if 0 <= x < 13 {
        assert RankCount(cards, x) > 0 <==> InRun(x, h);
      }
    }
    SortedSetUnique(run, values);
  }

  // ---------------------------------------------------------------------------
  // evaluate_five
  // ---------------------------------------------------------------------------

  /** `evaluate_five`: the category and tiebreakers of a five-card hand, categories tried from the highest down. */
  function EvaluateFive(cards: seq<Card>): HandValue
  {
    Classify(IsFlush(cards), IsStraight(cards), SortedCounts(cards), TiebreakOrder(cards), DescendingValues(cards))
  }

  /** The ladder of `evaluate_five` over what it computed of the hand: flush, straight, counts and the two rank orders. */
  function Classify(flush: bool, straight: Option<int>, counts: seq<nat>, tiebreakers: seq<Rank>, descending: seq<int>): HandValue
  {
    if counts == [5] then HandValue(FiveOfAKind, tiebreakers)
    else if flush && straight == Some(12) then HandValue(RoyalFlush, [12])
    else if flush && straight.Some? then HandValue(StraightFlush, [straight.value])
    else if counts == [4, 1] then HandValue(FourOfAKind, tiebreakers)
    else if counts == [3, 2] then HandValue(FullHouse, tiebreakers)
    else if flush then HandValue(Flush, descending)
    else if straight.Some? then HandValue(Straight, [straight.value])
    else if counts == [3, 1, 1] then HandValue(ThreeOfAKind, tiebreakers)
    else if counts == [2, 2, 1] then HandValue(TwoPair, tiebreakers)
    else if counts == [2, 1, 1, 1] then HandValue(OnePair, tiebreakers)
    else HandValue(HighCard, descending)
  }

  /** Every five-card hand gets a category from 1 to 11 and as many tiebreakers, all ranks, as that category carries. */
  lemma EvaluateFiveWellFormed(cards: seq<Card>)
    requires |cards| == 5
    ensures WellFormed(EvaluateFive(cards))
  {
    DescendingValuesIsSortedPermutation(cards);
    DescFromSorted(cards, 12);
    var d := DescendingValues(cards);
    forall i | 0 <= i < |d| ensures 0 <= d[i] < 13 {
      assert d[i] in d;
    }
    var s := IsStraight(cards);
    if s.Some? {
      StraightIffRun(cards, s.value);
    }
    ClassifyWellFormed(IsFlush(cards), s, SortedCounts(cards), TiebreakOrder(cards), d);
  }

  /** With one tiebreaker per count, five descending ranks and a straight's top a rank, the ladder's value is well formed. */
  lemma ClassifyWellFormed(flush: bool, straight: Option<int>, counts: seq<nat>, tiebreakers: seq<Rank>, descending: seq<int>)
    requires |tiebreakers| == |counts| && |descending| == 5
    requires forall i :: 0 <= i < |descending| ==> 0 <= descending[i] < 13
    requires straight.Some? ==> 0 <= straight.value < 13
    ensures WellFormed(Classify(flush, straight, counts, tiebreakers, descending))
  {
  }

  /** The value of a hand depends only on which cards it holds, not on their order. */
  lemma EvaluateFiveOrderIndependent(a: seq<Card>, b: seq<Card>)
    requires multiset(a) == multiset(b)
    ensures EvaluateFive(a) == EvaluateFive(b)
  {
    RankCountPermutation(a, b);
    assert |a| == |multiset(a)| == |multiset(b)| == |b|;
    assert Suits(a) == Suits(b) by {
      forall c ensures c in a <==> c in b {
        assert c in a <==> c in multiset(a);
        assert c in b <==> c in multiset(b);
      }
    }
    SameCountsSameOrders(a, b);
  }

  /** Hands with the same rank counts share every rank-derived ordering. */
  lemma SameCountsSameOrders(a: seq<Card>, b: seq<Card>)
    requires forall v: Rank :: RankCount(a, v) == RankCount(b, v)
    requires |a| == |b|
    ensures DistinctRanks(a) == DistinctRanks(b)
    ensures DescendingValues(a) == DescendingValues(b)
    ensures TiebreakOrder(a) == TiebreakOrder(b)
    ensures SortedCounts(a) == SortedCounts(b)
  {
    SamePresentFrom(a, b, 0);
    SameDescFrom(a, b, 12);
    SameByCountFrom(a, b, |a|, 12);
  }

  lemma {:induction false} SamePresentFrom(a: seq<Card>, b: seq<Card>, v: int)
    requires 0 <= v <= 13
    requires forall v: Rank :: RankCount(a, v) == RankCount(b, v)
    ensures PresentFrom(a, v) == PresentFrom(b, v)
    decreases 13 - v
  {
    if v < 13 {
      SamePresentFrom(a, b, v + 1);
    }
  }

  lemma {:induction false} SameDescFrom(a: seq<Card>, b: seq<Card>, v: int)
    requires v < 13
    requires forall v: Rank :: RankCount(a, v) == RankCount(b, v)
    ensures DescFrom(a, v) == DescFrom(b, v)
    decreases v + 1
  {
    if v >= 0 {
      SameDescFrom(a, b, v - 1);
    }
  }

  lemma {:induction false} SameWithCount(a: seq<Card>, b: seq<Card>, k: nat, v: int)
    requires v < 13
    requires forall v: Rank :: RankCount(a, v) == RankCount(b, v)
    ensures WithCount(a, k, v) == WithCount(b, k, v)
    decreases v + 1
  {
    if v >= 0 {
      SameWithCount(a, b, k, v - 1);
    }
  }

  lemma {:induction false} SameByCountFrom(a: seq<Card>, b: seq<Card>, k: nat, hi: int)
    requires hi < 13
    requires forall v: Rank :: RankCount(a, v) == RankCount(b, v)
    ensures ByCountFrom(a, k, hi) == ByCountFrom(b, k, hi)
  {
    if k > 0 {
      SameWithCount(a, b, k, hi);
      SameByCountFrom(a, b, k - 1, hi);
    }
  }

  /** Five of a Kind (category 11) needs a repeated card: a hand of distinct cards never reaches it. */
  lemma NoFiveOfAKindWithoutWilds(cards: seq<Card>)
    requires |cards| == 5 && Distinct(cards)
    ensures EvaluateFive(cards).category < FiveOfAKind
  {
    if SortedCounts(cards) == [5] {
      var r := TiebreakOrder(cards)[0];
      assert SortedCounts(cards)[0] == 5;
      assert RankCount(cards, r) == 5;
      DistinctCardsAtMostFourOfARank(cards, r);
    }
  }

  // ---------------------------------------------------------------------------
  // The categories by their shapes
  // ---------------------------------------------------------------------------

  /** The ranks present form a run of five. */
  ghost predicate IsRun(cards: seq<Card>)
  {
    exists h :: RunOfFive(cards, h)
  }

  /**
   * The category of a hand stated from what it holds: repeated ranks,
   * one suit, a run of five. The conditions are tried in the same order
   * of precedence as `evaluate_five` (so a hand holding a flush and three
   * of a kind is a flush).
   */
  ghost function ShapeCategory(cards: seq<Card>): int
  {
    if HasCount(cards, 5) then FiveOfAKind
    else if SameSuit(cards) && RunOfFive(cards, 12) then RoyalFlush
    else if SameSuit(cards) && IsRun(cards) then StraightFlush
    else if HasCount(cards, 4) then FourOfAKind
    else if HasCount(cards, 3) && HasCount(cards, 2) then FullHouse
    else if SameSuit(cards) then Flush
    else if IsRun(cards) then Straight
    else if HasCount(cards, 3) then ThreeOfAKind
    else if HasTwoPairs(cards) then TwoPair
    else if HasCount(cards, 2) then OnePair
    else HighCard
  }

  /** `evaluate_five` puts every five-card hand in the category its shape calls for. */
  lemma EvaluateFiveCategory(cards: seq<Card>)
    requires |cards| == 5
    ensures EvaluateFive(cards).category == ShapeCategory(cards)
  {
    var counts := SortedCounts(cards);
    SortedCountsNonIncreasing(cards);
    SortedCountsSum(cards);
    PartitionsOfFive(counts);
    SortedCountsMembers(cards, 2);
    SortedCountsMembers(cards, 3);
    SortedCountsMembers(cards, 4);
    SortedCountsMembers(cards, 5);
    SortedCountsTwoPairs(cards);
    StraightMatchesRun(cards);
    if counts == [2, 2, 1] {
      assert 0 <= 0 < 1 < |counts| && counts[0] == 2 && counts[1] == 2;
    }
  }

  /** A reported straight is a run of five with every rank once; a royal one is the run topped by the ace. */
  lemma StraightMatchesRun(cards: seq<Card>)
    requires |cards| == 5
    ensures IsStraight(cards).Some? <==> IsRun(cards)
    ensures IsStraight(cards) == Some(12) <==> RunOfFive(cards, 12)
    ensures IsStraight(cards).Some? ==> SortedCounts(cards) == [1, 1, 1, 1, 1]
  {
    StraightIffRun(cards, 12);
    var straight := IsStraight(cards);
    if straight.Some? {
      StraightIffRun(cards, straight.value);
      SortedCountsLength(cards);
      SortedCountsNonIncreasing(cards);
      SortedCountsSum(cards);
      PartitionsOfFive(SortedCounts(cards));
    }
    if IsRun(cards) {
      var h :| RunOfFive(cards, h);
      StraightIffRun(cards, h);
    }
  }
}
