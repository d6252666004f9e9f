/**
 * Ordering hand values (evaluators.py:172-183 and the tuple comparison at
 * evaluators.py:166): `compare_hands` compares categories and then the
 * tiebreakers pairwise along `zip`, while the search for the best hand
 * compares `(hand_rank, tiebreakers)` tuples as Python does.
 */
module HandComparison {
  import opened HandEvaluator

  /** The two lists agree on every position both have. */
  ghost predicate AgreeOnZip(x: seq<int>, y: seq<int>)
  {
    forall i :: 0 <= i < |x| && i < |y| ==> x[i] == y[i]
  }

  /** Position `i` is the first position of `zip(x, y)` where the lists differ. */
  ghost predicate FirstDifference(x: seq<int>, y: seq<int>, i: int)
  {
    0 <= i < |x| && i < |y| && x[i] != y[i] && forall j :: 0 <= j < i ==> x[j] == y[j]
  }

  /** The tiebreaker loop of `compare_hands`: the first differing pair decides, otherwise a tie. */
  function CompareTiebreakers(x: seq<int>, y: seq<int>): (r: int)
    ensures r == 0 <==> AgreeOnZip(x, y)
    ensures r != 0 ==> exists i :: FirstDifference(x, y, i) && (r == 1 <==> x[i] > y[i]) && (r == -1 <==> x[i] < y[i])
  {
    if x == [] || y == [] then 0
    else if x[0] != y[0] then (if x[0] > y[0] then 1 else -1)
    else
      var r := CompareTiebreakers(x[1..], y[1..]);
      assert AgreeOnZip(x, y) <==> AgreeOnZip(x[1..], y[1..]) by {
        if AgreeOnZip(x[1..], y[1..]) {
          forall i | 0 <= i < |x| && i < |y| ensures x[i] == y[i] {
            if i > 0 { assert x[1..][i - 1] == x[i] && y[1..][i - 1] == y[i]; }
          }
        }
      }
      assert r != 0 ==> exists i :: FirstDifference(x, y, i) && (r == 1 <==> x[i] > y[i]) && (r == -1 <==> x[i] < y[i]) by {
        if r != 0 {
          var i :| FirstDifference(x[1..], y[1..], i) && (r == 1 <==> x[1..][i] > y[1..][i]) && (r == -1 <==> x[1..][i] < y[1..][i]);
          assert FirstDifference(x, y, i + 1) by {
            forall j | 0 <= j < i + 1 ensures x[j] == y[j] {
              if j > 0 { assert x[1..][j - 1] == x[j] && y[1..][j - 1] == y[j]; }
            }
          }
        }
      }
      r
  }

  /** `compare_hands`: 1 when `a` wins, -1 when `b` wins, 0 for a tie. */
  function CompareHands(a: HandValue, b: HandValue): (r: int)
    ensures r == 1 || r == 0 || r == -1
  {
    if a.category != b.category then (if a.category > b.category then 1 else -1)
    else CompareTiebreakers(a.tiebreakers, b.tiebreakers)
  }

  /** Swapping the hands negates the verdict. */
  lemma CompareHandsAntisymmetric(a: HandValue, b: HandValue)
    ensures CompareHands(b, a) == -CompareHands(a, b)
  {
    CompareTiebreakersAntisymmetric(a.tiebreakers, b.tiebreakers);
  }

  lemma {:induction false} CompareTiebreakersAntisymmetric(x: seq<int>, y: seq<int>)
    ensures CompareTiebreakers(y, x) == -CompareTiebreakers(x, y)
  {
    if x != [] && y != [] && x[0] == y[0] {
      CompareTiebreakersAntisymmetric(x[1..], y[1..]);
    }
  }

  /** Two well-formed hand values tie exactly when they are equal. */
  lemma CompareHandsTieIffEqual(a: HandValue, b: HandValue)
    requires WellFormed(a) && WellFormed(b)
    ensures CompareHands(a, b) == 0 <==> a == b
  {
    if a.category == b.category && CompareHands(a, b) == 0 {
      assert a.tiebreakers == b.tiebreakers;
    }
  }

  // ---------------------------------------------------------------------------
  // Python's comparison of (hand_rank, tiebreakers) tuples
  // ---------------------------------------------------------------------------

  /** Python's `x > y` on lists of ints: lexicographic, a proper prefix being smaller. */
  predicate ListGreater(x: seq<int>, y: seq<int>)
  {
    if x == [] then false
    else if y == [] then true
    else if x[0] != y[0] then x[0] > y[0]
    else ListGreater(x[1..], y[1..])
  }

  /** `(a.hand_rank, a.tiebreakers) > (b.hand_rank, b.tiebreakers)`. */
  predicate Beats(a: HandValue, b: HandValue)
  {
    a.category > b.category || (a.category == b.category && ListGreater(a.tiebreakers, b.tiebreakers))
  }

  lemma {:induction false} ListGreaterIrreflexive(x: seq<int>)
    ensures !ListGreater(x, x)
  {
    if x != [] {
      ListGreaterIrreflexive(x[1..]);
    }
  }

  lemma {:induction false} ListGreaterTransitive(x: seq<int>, y: seq<int>, z: seq<int>)
    requires ListGreater(x, y) && ListGreater(y, z)
    ensures ListGreater(x, z)
  {
    if z != [] && x[0] == y[0] && y[0] == z[0] {
      ListGreaterTransitive(x[1..], y[1..], z[1..]);
    }
  }

  lemma {:induction false} ListGreaterTotal(x: seq<int>, y: seq<int>)
    ensures x == y || ListGreater(x, y) || ListGreater(y, x)
  {
    if x != [] && y != [] && x[0] == y[0] {
      ListGreaterTotal(x[1..], y[1..]);
      if x[1..] == y[1..] {
        assert x == [x[0]] + x[1..] && y == [y[0]] + y[1..];
      }
    }
  }

  /** The tuple comparison is a strict total order on hand values. */
  lemma BeatsIsStrictTotalOrder(a: HandValue, b: HandValue, c: HandValue)
    ensures !Beats(a, a)
    ensures Beats(a, b) ==> !Beats(b, a)
    ensures Beats(a, b) && Beats(b, c) ==> Beats(a, c)
    ensures a == b || Beats(a, b) || Beats(b, a)
  {
    ListGreaterIrreflexive(a.tiebreakers);
    if Beats(a, b) && Beats(b, a) {
      ListGreaterTransitive(a.tiebreakers, b.tiebreakers, a.tiebreakers);
    }
    if Beats(a, b) && Beats(b, c) && a.category == b.category == c.category {
      ListGreaterTransitive(a.tiebreakers, b.tiebreakers, c.tiebreakers);
    }
    ListGreaterTotal(a.tiebreakers, b.tiebreakers);
  }

  /** "Not beaten by" is transitive: it is the reflexive closure of the reverse order. */
  lemma NotBeatenTransitive(a: HandValue, b: HandValue, c: HandValue)
    requires !Beats(a, b) && !Beats(b, c)
    ensures !Beats(a, c)
  {
    BeatsIsStrictTotalOrder(a, b, c);
    BeatsIsStrictTotalOrder(c, b, a);
    BeatsIsStrictTotalOrder(b, a, c);
    BeatsIsStrictTotalOrder(c, a, b);
  }

  lemma {:induction false} ListGreaterIsCompareOne(x: seq<int>, y: seq<int>)
    requires |x| == |y|
    ensures ListGreater(x, y) <==> CompareTiebreakers(x, y) == 1
  {
    if x != [] && x[0] == y[0] {
      ListGreaterIsCompareOne(x[1..], y[1..]);
    }
  }

  /**
   * On well-formed values the tuple comparison used to pick the best hand
   * and `compare_hands` agree: `a` beats `b` exactly when `compare_hands`
   * says `a` wins.
   */
  lemma BeatsIffCompareHandsWins(a: HandValue, b: HandValue)
    requires WellFormed(a) && WellFormed(b)
    ensures Beats(a, b) <==> CompareHands(a, b) == 1
  {
    if a.category == b.category {
      ListGreaterIsCompareOne(a.tiebreakers, b.tiebreakers);
    }
  }
}
