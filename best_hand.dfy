/**
 * `best_hand` (evaluators.py:156-170): the best five-card hand that can be
 * made from the hole cards and the community cards, found by evaluating
 * every five-card combination in `itertools.combinations` order and
 * keeping a result only when it is strictly better than the best so far.
 */
module BestHandSearch {
  import opened Cards
  import opened Combinations
  import opened HandEvaluator
  import opened HandComparison

  /** `combinations(range(n), 5)`: the index tuples of every five-card choice, in itertools order. */
  function FiveCardChoices(n: nat): (cs: seq<seq<nat>>)
    ensures forall j :: 0 <= j < |cs| ==> IsCombo(cs[j], 5, 0, n)
  {
    CombosAreValid(5, n);
    Combos(5, 0, n)
  }

  /** The value of the five cards the combination picks from the pool. */
  function ComboValue(pool: seq<Card>, c: seq<nat>): HandValue
    requires IsCombo(c, 5, 0, |pool|)
  {
    EvaluateFive(Select(pool, c))
  }

  /**
   * `best_hand`: the value of the best five cards among `hole + community`
   * and those cards. No combination beats the result, and the cards chosen
   * are the first combination, in `itertools.combinations` order, that
   * reaches it.
   */
  method BestHand(hole: seq<Card>, community: seq<Card>) returns (best: HandValue, bestCards: seq<Card>)
    requires |hole + community| >= 5
    ensures WellFormed(best)
    ensures exists c :: IsCombo(c, 5, 0, |hole + community|) && bestCards == Select(hole + community, c) && best == EvaluateFive(bestCards)
    ensures forall c :: IsCombo(c, 5, 0, |hole + community|) ==> !Beats(ComboValue(hole + community, c), best)
    ensures exists idx :: (
      && 0 <= idx < |FiveCardChoices(|hole + community|)|
      && bestCards == Select(hole + community, FiveCardChoices(|hole + community|)[idx])
      && forall j :: 0 <= j < idx ==> Beats(best, ComboValue(hole + community, FiveCardChoices(|hole + community|)[j])))
  {
    var pool := hole + community;
    var cs := FiveCardChoices(|pool|);
    CombosNonEmpty(5, 0, |pool|);
    ghost var k;
    best, bestCards, k := SearchCombos(EvaluateFive, pool, cs);
    EvaluateFiveWellFormed(bestCards);
    forall c | IsCombo(c, 5, 0, |pool|) ensures !Beats(ComboValue(pool, c), best) {
      CombosAreExactlyTheSubsets(5, 0, |pool|, c);
      var j :| 0 <= j < |cs| && cs[j] == c;
    }
  }

  /**
   * The loop of `best_hand`: score every combination in turn and keep a
   * result only when it beats the best so far (`best is None or result >
   * best`). The result is a maximum, and the first one met. `score` stands
   * for `evaluate_five`.
   */
  method SearchCombos(score: seq<Card> -> HandValue, pool: seq<Card>, cs: seq<seq<nat>>)
    returns (best: HandValue, bestCards: seq<Card>, ghost k: nat)
    requires |cs| > 0
    requires forall j, i :: 0 <= j < |cs| && 0 <= i < |cs[j]| ==> cs[j][i] < |pool|
    ensures k < |cs| && bestCards == Select(pool, cs[k]) && best == score(bestCards)
    ensures forall j :: 0 <= j < |cs| ==> !Beats(score(Select(pool, cs[j])), best)
    ensures forall j :: 0 <= j < k ==> Beats(best, score(Select(pool, cs[j])))
  {
    k := 0;
    bestCards := Select(pool, cs[0]);
    best := score(bestCards);
    BeatsIsStrictTotalOrder(best, best, best);
    for i := 1 to |cs|
      invariant k < i
      invariant bestCards == Select(pool, cs[k]) && best == score(bestCards)
      invariant forall j :: 0 <= j < i ==> !Beats(score(Select(pool, cs[j])), best)
      invariant forall j :: 0 <= j < k ==> Beats(best, score(Select(pool, cs[j])))
    {
      var cards := Select(pool, cs[i]);
      var result := score(cards);
      if Beats(result, best) {
        forall j | 0 <= j < i
          ensures !Beats(score(Select(pool, cs[j])), result) && Beats(result, score(Select(pool, cs[j])))
        {
          var earlier := score(Select(pool, cs[j]));
          BeatsIsStrictTotalOrder(earlier, best, result);
          BeatsIsStrictTotalOrder(result, best, earlier);
          BeatsIsStrictTotalOrder(result, earlier, best);
        }
        BeatsIsStrictTotalOrder(result, result, result);
        best, bestCards, k := result, cards, i;
      }
    }
  }
}
