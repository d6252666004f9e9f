/**
 * The rank histogram of a hand and the orderings `evaluate_five` derives
 * from it (evaluators.py:72, 87-109, 133, 153): the `Counter` of ranks, the
 * sorted set of distinct rank values, the ranks sorted by (count, value)
 * descending, and the card values sorted descending.
 */
module RankCounts {
  import opened Cards

  /** The `Counter` of ranks: how many of `cards` have rank `v`. */
  function RankCount(cards: seq<Card>, v: Rank): nat
  {
    if cards == [] then 0 else (if cards[0].rank == v then 1 else 0) + RankCount(cards[1..], v)
  }

  /** The rank values of the cards, in hand order. */
  function Ranks(cards: seq<Card>): (r: seq<int>)
    ensures |r| == |cards|
    ensures forall i :: 0 <= i < |cards| ==> r[i] == cards[i].rank
  {
    seq(|cards|, i requires 0 <= i < |cards| => cards[i].rank)
  }

  /** The count of a rank is the total multiplicity of its four cards, so it depends only on the multiset of cards. */
  lemma {:induction false} RankCountBySuit(cards: seq<Card>, v: Rank)
    ensures RankCount(cards, v) ==
      multiset(cards)[Card(v, 0)] + multiset(cards)[Card(v, 1)] + multiset(cards)[Card(v, 2)] + multiset(cards)[Card(v, 3)]
  {
    if cards != [] {
      assert cards == [cards[0]] + cards[1..];
      assert multiset(cards) == multiset{cards[0]} + multiset(cards[1..]);
      RankCountBySuit(cards[1..], v);
    }
  }

  /** Reordering the cards does not change any count. */
  lemma RankCountPermutation(a: seq<Card>, b: seq<Card>)
    requires multiset(a) == multiset(b)
    ensures forall v: Rank :: RankCount(a, v) == RankCount(b, v)
  {
    forall v: Rank ensures RankCount(a, v) == RankCount(b, v) {
      RankCountBySuit(a, v);
      RankCountBySuit(b, v);
    }
  }

  /** The count of a rank is its multiplicity among the rank values. */
  lemma {:induction false} RankCountIsMultiplicity(cards: seq<Card>, x: int)
    ensures multiset(Ranks(cards))[x] == if 0 <= x < 13 then RankCount(cards, x) else 0
  {
    if cards != [] {
      RankCountIsMultiplicity(cards[1..], x);
      assert Ranks(cards) == [cards[0].rank] + Ranks(cards[1..]);
    }
  }

  /** Pairwise distinct cards hold at most four cards of any rank. */
  lemma DistinctCardsAtMostFourOfARank(cards: seq<Card>, v: Rank)
    requires Distinct(cards)
    ensures RankCount(cards, v) <= 4
  {
    RankCountBySuit(cards, v);
    forall s: Suit ensures multiset(cards)[Card(v, s)] <= 1 {
      DistinctMultiplicity(cards, Card(v, s));
    }
  }

  lemma {:induction false} DistinctMultiplicity(cards: seq<Card>, c: Card)
    requires Distinct(cards)
    ensures multiset(cards)[c] <= 1
  {
    if cards != [] {
      assert cards == [cards[0]] + cards[1..];
      assert Distinct(cards[1..]) by {
        forall i, j | 0 <= i < j < |cards| - 1 ensures cards[1..][i] != cards[1..][j] {
          assert cards[1..][i] == cards[i + 1] && cards[1..][j] == cards[j + 1];
        }
      }
      DistinctMultiplicity(cards[1..], c);
      if cards[0] == c {
        assert c !in cards[1..] by {
          forall i | 0 <= i < |cards| - 1 ensures cards[1..][i] != c {
            assert cards[1..][i] == cards[i + 1];
          }
        }
      }
    }
  }

  lemma {:induction false} RankCountAtMostSize(cards: seq<Card>, v: Rank)
    ensures RankCount(cards, v) <= |cards|
  {
    if cards != [] {
      RankCountAtMostSize(cards[1..], v);
    }
  }

  // ---------------------------------------------------------------------------
  // sorted(set(values)): the distinct rank values in ascending order
  // ---------------------------------------------------------------------------

  ghost predicate StrictlyIncreasing(s: seq<int>)
  {
    forall i, j :: 0 <= i < j < |s| ==> s[i] < s[j]
  }

  /** The ranks from `v` upward that occur in `cards`, ascending. */
  function PresentFrom(cards: seq<Card>, v: int): seq<int>
    requires 0 <= v <= 13
    decreases 13 - v, cards
  {
    if v == 13 then []
    else (if RankCount(cards, v) > 0 then [v] else []) + PresentFrom(cards, v + 1)
  }

  /** `sorted(set(card values))`. */
  function DistinctRanks(cards: seq<Card>): seq<int>
  {
    PresentFrom(cards, 0)
  }

  lemma {:induction false} PresentFromIsSortedSet(cards: seq<Card>, v: int)
    requires 0 <= v <= 13
    ensures StrictlyIncreasing(PresentFrom(cards, v))
    ensures forall x: int :: x in PresentFrom(cards, v) <==> v <= x < 13 && RankCount(cards, x) > 0
    decreases 13 - v
  {
    if v < 13 {
      PresentFromIsSortedSet(cards, v + 1);
      var rest := PresentFrom(cards, v + 1);
      var s := PresentFrom(cards, v);
      if RankCount(cards, v) > 0 {
        assert s == [v] + rest;
        forall i, j | 0 <= i < j < |s| ensures s[i] < s[j] {
          assert s[j] == rest[j - 1];
          assert s[j] in rest;
          assert s[j] >= v + 1;
          if i > 0 {
            assert s[i] == rest[i - 1];
          } else {
            assert s[i] == v;
          }
        }
      }
    }
  }

  /** The distinct rank values: ascending, and exactly the ranks that occur. */
  lemma DistinctRanksIsSortedSet(cards: seq<Card>)
    ensures StrictlyIncreasing(DistinctRanks(cards))
    ensures forall x: int :: x in DistinctRanks(cards) <==> 0 <= x < 13 && RankCount(cards, x) > 0
  {
    PresentFromIsSortedSet(cards, 0);
  }

  /** A strictly increasing sequence is determined by its elements. */
  lemma {:induction false} SortedSetUnique(a: seq<int>, b: seq<int>)
    requires StrictlyIncreasing(a) && StrictlyIncreasing(b)
    requires forall x: int :: x in a <==> x in b
    ensures a == b
  {
    if a != [] { assert a[0] in a; }
    if b != [] { assert b[0] in b; }
    if a != [] && b != [] {
      // the first element of each is the least element of both
      assert a[0] == b[0] by {
        assert b[0] in a && a[0] in b;
        var i :| 0 <= i < |a| && a[i] == b[0];
        var j :| 0 <= j < |b| && b[j] == a[0];
        assert a[0] <= a[i] && b[0] <= b[j];
      }
      assert StrictlyIncreasing(a[1..]) && StrictlyIncreasing(b[1..]) by {
        forall i, j | 0 <= i < j < |a| - 1 ensures a[1..][i] < a[1..][j] {
          assert a[1..][i] == a[i + 1] && a[1..][j] == a[j + 1];
        }
        forall i, j | 0 <= i < j < |b| - 1 ensures b[1..][i] < b[1..][j] {
          assert b[1..][i] == b[i + 1] && b[1..][j] == b[j + 1];
        }
      }
      forall x: int ensures x in a[1..] <==> x in b[1..] {
        TailMembers(a, x);
        TailMembers(b, x);
      }
      SortedSetUnique(a[1..], b[1..]);
      assert a == [a[0]] + a[1..] && b == [b[0]] + b[1..];
    }
  }

  lemma TailMembers(a: seq<int>, x: int)
    requires a != [] && StrictlyIncreasing(a)
    ensures x in a[1..] <==> x in a && x != a[0]
  {
    if x in a && x != a[0] {
      var i :| 0 <= i < |a| && a[i] == x;
      assert a[1..][i - 1] == x;
    }
    if x in a[1..] {
      var i :| 0 <= i < |a| - 1 && a[1..][i] == x;
      assert a[i + 1] == x && a[0] < a[i + 1];
    }
  }

  // ---------------------------------------------------------------------------
  // sorted(values, reverse=True): all card values, highest first
  // ---------------------------------------------------------------------------

  function Repeat(x: int, n: nat): (r: seq<int>)
    ensures |r| == n && forall i :: 0 <= i < n ==> r[i] == x
  {
    if n == 0 then [] else [x] + Repeat(x, n - 1)
  }

  /** Every card value from rank `v` down to deuce, each as often as it occurs. */
  function DescFrom(cards: seq<Card>, v: int): seq<int>
    requires v < 13
    decreases v + 1, cards
  {
    if v < 0 then [] else Repeat(v, RankCount(cards, v)) + DescFrom(cards, v - 1)
  }

  /** `sorted([card_value(c) for c in cards], reverse=True)`. */
  function DescendingValues(cards: seq<Card>): seq<int>
  {
    DescFrom(cards, 12)
  }

  ghost predicate NonIncreasing(s: seq<int>)
  {
    forall i, j :: 0 <= i < j < |s| ==> s[i] >= s[j]
  }

  lemma {:induction false} DescFromSorted(cards: seq<Card>, v: int)
    requires v < 13
    ensures NonIncreasing(DescFrom(cards, v))
    ensures forall x: int :: x in DescFrom(cards, v) ==> 0 <= x <= v
    ensures forall x: int :: multiset(DescFrom(cards, v))[x] == if 0 <= x <= v then RankCount(cards, x) else 0
    decreases v + 1
  {
    if v >= 0 {
      DescFromSorted(cards, v - 1);
      var rep := Repeat(v, RankCount(cards, v));
      var rest := DescFrom(cards, v - 1);
      var s := DescFrom(cards, v);
      assert s == rep + rest;
      forall i, j | 0 <= i < j < |s| ensures s[i] >= s[j] {
        if j >= |rep| {
          assert s[j] == rest[j - |rep|] && s[j] in rest;
          if i >= |rep| { assert s[i] == rest[i - |rep|]; }
        }
      }
      forall x: int | x in s ensures 0 <= x <= v {
        if x in rep {
          var i :| 0 <= i < |rep| && rep[i] == x;
        }
      }
      forall x: int ensures multiset(s)[x] == if 0 <= x <= v then RankCount(cards, x) else 0 {
        RepeatMultiplicity(v, RankCount(cards, v), x);
      }
    }
  }

  lemma {:induction false} RepeatMultiplicity(x: int, n: nat, y: int)
    ensures multiset(Repeat(x, n))[y] == if x == y then n else 0
  {
    if n > 0 {
      RepeatMultiplicity(x, n - 1, y);
      assert Repeat(x, n) == [x] + Repeat(x, n - 1);
    }
  }

  /** The descending values are sorted highest first and are a permutation of the card values. */
  lemma DescendingValuesIsSortedPermutation(cards: seq<Card>)
    ensures NonIncreasing(DescendingValues(cards))
    ensures multiset(DescendingValues(cards)) == multiset(Ranks(cards))
    ensures |DescendingValues(cards)| == |cards|
  {
    DescFromSorted(cards, 12);
    DescendingValuesPermutation(cards);
    assert |multiset(DescendingValues(cards))| == |multiset(Ranks(cards))|;
  }

  lemma DescendingValuesPermutation(cards: seq<Card>)
    requires forall x: int :: multiset(DescFrom(cards, 12))[x] == if 0 <= x <= 12 then RankCount(cards, x) else 0
    ensures multiset(DescendingValues(cards)) == multiset(Ranks(cards))
  {
    forall x: int ensures multiset(DescendingValues(cards))[x] == multiset(Ranks(cards))[x] {
      RankCountIsMultiplicity(cards, x);
      assert multiset(DescFrom(cards, 12))[x] == if 0 <= x <= 12 then RankCount(cards, x) else 0;
    }
  }

  // ---------------------------------------------------------------------------
  // sorted(rank_counts.keys(), key=(count, value), reverse=True)
  // ---------------------------------------------------------------------------

  /** Rank `x` sorts before rank `y`: a higher count, or the same count and a higher value. */
  ghost predicate KeyAbove(cards: seq<Card>, x: Rank, y: Rank)
  {
    RankCount(cards, x) > RankCount(cards, y) || (RankCount(cards, x) == RankCount(cards, y) && x > y)
  }

  /** The ranks from `v` down to deuce that occur exactly `k` times, highest first. */
  function WithCount(cards: seq<Card>, k: nat, v: int): (r: seq<Rank>)
    requires v < 13
    decreases v + 1, cards
  {
    if v < 0 then [] else (if RankCount(cards, v) == k then [v as Rank] else []) + WithCount(cards, k, v - 1)
  }

  /** The ranks occurring `k` times, then those occurring `k - 1` times, ..., then once. */
  function ByCountFrom(cards: seq<Card>, k: nat, hi: int): seq<Rank>
    requires hi < 13
  {
    if k == 0 then [] else WithCount(cards, k, hi) + ByCountFrom(cards, k - 1, hi)
  }

  /** The tiebreak order of the distinct ranks: by (count, value), both descending. */
  function TiebreakOrder(cards: seq<Card>): seq<Rank>
  {
    ByCountFrom(cards, |cards|, 12)
  }

  /** `sorted(rank_counts.values(), reverse=True)`, listed along the tiebreak order. */
  function SortedCounts(cards: seq<Card>): (r: seq<nat>)
    ensures |r| == |TiebreakOrder(cards)|
  {
    var order := TiebreakOrder(cards);
    seq(|order|, i requires 0 <= i < |order| => RankCount(cards, order[i]))
  }

  lemma {:induction false} WithCountSorted(cards: seq<Card>, k: nat, v: int)
    requires v < 13
    ensures forall x: int :: x in WithCount(cards, k, v) <==> 0 <= x <= v && RankCount(cards, x) == k
    ensures forall i, j :: 0 <= i < j < |WithCount(cards, k, v)| ==> WithCount(cards, k, v)[i] > WithCount(cards, k, v)[j]
    decreases v + 1
  {
    if v >= 0 {
      WithCountSorted(cards, k, v - 1);
      var rest := WithCount(cards, k, v - 1);
      var s := WithCount(cards, k, v);
      if RankCount(cards, v) == k {
        assert s == [v as Rank] + rest;
        forall i, j | 0 <= i < j < |s| ensures s[i] > s[j] {
          assert s[j] == rest[j - 1] && s[j] in rest;
          if i > 0 { assert s[i] == rest[i - 1]; }
        }
      }
    }
  }

  lemma {:induction false} ByCountFromMembers(cards: seq<Card>, k: nat, hi: int)
    requires hi < 13
    ensures forall x: int :: x in ByCountFrom(cards, k, hi) <==> 0 <= x <= hi && 1 <= RankCount(cards, x) <= k
  {
    if k > 0 {
      ByCountFromMembers(cards, k - 1, hi);
      WithCountSorted(cards, k, hi);
      var top := WithCount(cards, k, hi);
      var rest := ByCountFrom(cards, k - 1, hi);
      assert ByCountFrom(cards, k, hi) == top + rest;
      forall x: int ensures x in top + rest <==> 0 <= x <= hi && 1 <= RankCount(cards, x) <= k {
        assert x in top + rest <==> x in top || x in rest;
      }
    }
  }

  lemma {:induction false} ByCountFromSorted(cards: seq<Card>, k: nat, hi: int)
    requires hi < 13
    ensures forall i, j :: 0 <= i < j < |ByCountFrom(cards, k, hi)| ==> KeyAbove(cards, ByCountFrom(cards, k, hi)[i], ByCountFrom(cards, k, hi)[j])
  {
    if k > 0 {
      ByCountFromSorted(cards, k - 1, hi);
      ByCountFromMembers(cards, k - 1, hi);
      WithCountSorted(cards, k, hi);
      var top := WithCount(cards, k, hi);
      var rest := ByCountFrom(cards, k - 1, hi);
      assert ByCountFrom(cards, k, hi) == top + rest;
      assert forall x: int :: x in top ==> RankCount(cards, x) == k;
      assert forall x: int :: x in rest ==> RankCount(cards, x) < k;
      ConcatKeySorted(cards, k, top, rest);
    }
  }

  lemma ConcatKeySorted(cards: seq<Card>, k: nat, top: seq<Rank>, rest: seq<Rank>)
    requires forall x: int :: x in top ==> RankCount(cards, x) == k
    requires forall i, j :: 0 <= i < j < |top| ==> top[i] > top[j]
    requires forall x: int :: x in rest ==> RankCount(cards, x) < k
    requires forall i, j :: 0 <= i < j < |rest| ==> KeyAbove(cards, rest[i], rest[j])
    ensures forall i, j :: 0 <= i < j < |top + rest| ==> KeyAbove(cards, (top + rest)[i], (top + rest)[j])
  {
    var s := top + rest;
    forall i, j | 0 <= i < j < |s| ensures KeyAbove(cards, s[i], s[j]) {
      if j < |top| {
        assert s[i] == top[i] && s[j] == top[j];
      } else if i < |top| {
        assert s[i] == top[i] && s[i] in top;
        assert s[j] == rest[j - |top|] && s[j] in rest;
      } else {
        assert s[i] == rest[i - |top|] && s[j] == rest[j - |top|];
      }
    }
  }

  /**
   * The tiebreak order lists every rank that occurs, and no other, sorted
   * strictly by (count, value) descending: the unique result of the
   * source's keyed sort, since no two ranks share a key.
   */
  lemma TiebreakOrderIsKeySorted(cards: seq<Card>)
    ensures forall x: int :: x in TiebreakOrder(cards) <==> 0 <= x < 13 && RankCount(cards, x) > 0
    ensures forall i, j :: 0 <= i < j < |TiebreakOrder(cards)| ==>
      KeyAbove(cards, TiebreakOrder(cards)[i], TiebreakOrder(cards)[j])
  {
    ByCountFromSorted(cards, |cards|, 12);
    ByCountFromMembers(cards, |cards|, 12);
    forall x: Rank ensures RankCount(cards, x) <= |cards| {
      RankCountAtMostSize(cards, x);
    }
  }

  /** The counts along the tiebreak order never increase: they are the rank counts sorted descending. */
  lemma SortedCountsNonIncreasing(cards: seq<Card>)
    ensures forall i, j :: 0 <= i < j < |SortedCounts(cards)| ==> SortedCounts(cards)[i] >= SortedCounts(cards)[j]
    ensures forall i :: 0 <= i < |SortedCounts(cards)| ==> SortedCounts(cards)[i] >= 1
  {
    TiebreakOrderIsKeySorted(cards);
    var order := TiebreakOrder(cards);
    forall i | 0 <= i < |order| ensures RankCount(cards, order[i]) >= 1 {
      assert order[i] in order;
    }
  }

  // ---------------------------------------------------------------------------
  // The counts add up to the number of cards
  // ---------------------------------------------------------------------------

  ghost predicate NoDuplicates(s: seq<int>)
  {
    forall i, j :: 0 <= i < j < |s| ==> s[i] != s[j]
  }

  function Sum(s: seq<nat>): nat
  {
    if s == [] then 0 else s[0] + Sum(s[1..])
  }

  /** The total count of the ranks listed in `o`. */
  ghost function CountOver(cards: seq<Card>, o: seq<Rank>): nat
  {
    if o == [] then 0 else RankCount(cards, o[0]) + CountOver(cards, o[1..])
  }

  /** How many of `cards` have a rank listed in `o`. */
  ghost function NumWithRankIn(cards: seq<Card>, o: seq<Rank>): nat
  {
    if cards == [] then 0 else (if cards[0].rank in o then 1 else 0) + NumWithRankIn(cards[1..], o)
  }

  lemma {:induction false} NumWithRankInCons(cards: seq<Card>, r: Rank, o: seq<Rank>)
    requires r !in o
    ensures NumWithRankIn(cards, [r] + o) == RankCount(cards, r) + NumWithRankIn(cards, o)
  {
    if cards != [] {
      NumWithRankInCons(cards[1..], r, o);
    }
  }

  lemma {:induction false} NumWithRankInAll(cards: seq<Card>, o: seq<Rank>)
    requires forall i :: 0 <= i < |cards| ==> cards[i].rank in o
    ensures NumWithRankIn(cards, o) == |cards|
  {
    if cards != [] {
      NumWithRankInAll(cards[1..], o);
    }
  }

  lemma {:induction false} NumWithRankInNone(cards: seq<Card>)
    ensures NumWithRankIn(cards, []) == 0
  {
    if cards != [] {
      NumWithRankInNone(cards[1..]);
    }
  }

  lemma {:induction false} CountOverIsNumWithRankIn(cards: seq<Card>, o: seq<Rank>)
    requires NoDuplicates(o)
    ensures CountOver(cards, o) == NumWithRankIn(cards, o)
  {
    if o == [] {
      NumWithRankInNone(cards);
    } else {
      var tail := o[1..];
      assert NoDuplicates(tail) by {
        forall i, j | 0 <= i < j < |tail| ensures tail[i] != tail[j] {
          assert tail[i] == o[i + 1] && tail[j] == o[j + 1];
        }
      }
      CountOverIsNumWithRankIn(cards, tail);
      assert o[0] !in tail by {
        forall i | 0 <= i < |tail| ensures tail[i] != o[0] {
          assert tail[i] == o[i + 1];
        }
      }
      assert o == [o[0]] + tail;
      NumWithRankInCons(cards, o[0], tail);
    }
  }

  lemma {:induction false} SumOfCountsOver(cards: seq<Card>, o: seq<Rank>)
    ensures Sum(seq(|o|, i requires 0 <= i < |o| => RankCount(cards, o[i]))) == CountOver(cards, o)
  {
    if o != [] {
      SumOfCountsOver(cards, o[1..]);
      var whole := seq(|o|, i requires 0 <= i < |o| => RankCount(cards, o[i]));
      var tail := seq(|o| - 1, i requires 0 <= i < |o| - 1 => RankCount(cards, o[1..][i]));
      assert whole[1..] == tail;
    }
  }

  /** The tiebreak order lists each rank once. */
  lemma TiebreakOrderNoDuplicates(cards: seq<Card>)
    ensures NoDuplicates(TiebreakOrder(cards))
  {
    TiebreakOrderIsKeySorted(cards);
  }

  /** The sorted counts add up to the number of cards: every card is counted under its rank, once. */
  lemma SortedCountsSum(cards: seq<Card>)
    ensures Sum(SortedCounts(cards)) == |cards|
  {
    var order := TiebreakOrder(cards);
    TiebreakOrderIsKeySorted(cards);
    TiebreakOrderNoDuplicates(cards);
    SumOfCountsOver(cards, order);
    assert SortedCounts(cards) == seq(|order|, i requires 0 <= i < |order| => RankCount(cards, order[i]));
    CountOverIsNumWithRankIn(cards, order);
    forall i | 0 <= i < |cards| ensures cards[i].rank in order {
      RankCountPositive(cards, i);
    }
    NumWithRankInAll(cards, order);
  }

  lemma {:induction false} RankCountPositive(cards: seq<Card>, i: int)
    requires 0 <= i < |cards|
    ensures RankCount(cards, cards[i].rank) > 0
  {
    if i > 0 {
      RankCountPositive(cards[1..], i - 1);
      assert cards[1..][i - 1] == cards[i];
    }
  }

  /** Some rank occurs exactly `k` times. */
  ghost predicate HasCount(cards: seq<Card>, k: nat)
  {
    exists v: Rank :: RankCount(cards, v) == k
  }

  /** Two different ranks occur twice each. */
  ghost predicate HasTwoPairs(cards: seq<Card>)
  {
    exists v: Rank, w: Rank :: v < w && RankCount(cards, v) == 2 && RankCount(cards, w) == 2
  }

  /** A count `k` appears among the sorted counts exactly when some rank occurs `k` times. */
  lemma SortedCountsMembers(cards: seq<Card>, k: nat)
    requires k >= 1
    ensures HasCount(cards, k) <==> k in SortedCounts(cards)
  {
    var order := TiebreakOrder(cards);
    TiebreakOrderIsKeySorted(cards);
    if v: Rank :| RankCount(cards, v) == k {
      assert v in order;
      var i :| 0 <= i < |order| && order[i] == v;
      assert SortedCounts(cards)[i] == k;
    }
    if k in SortedCounts(cards) {
      var i :| 0 <= i < |order| && SortedCounts(cards)[i] == k;
      assert RankCount(cards, order[i]) == k;
    }
  }

  /** Two different ranks occur twice exactly when two positions of the sorted counts hold 2. */
  lemma SortedCountsTwoPairs(cards: seq<Card>)
    ensures HasTwoPairs(cards)
        <==> (exists i, j :: 0 <= i < j < |SortedCounts(cards)| && SortedCounts(cards)[i] == 2 && SortedCounts(cards)[j] == 2)
  {
    var order := TiebreakOrder(cards);
    var counts := SortedCounts(cards);
    TiebreakOrderIsKeySorted(cards);
    TiebreakOrderNoDuplicates(cards);
    if v: Rank, w: Rank :| v < w && RankCount(cards, v) == 2 && RankCount(cards, w) == 2 {
      assert v in order && w in order;
      var i :| 0 <= i < |order| && order[i] == v;
      var j :| 0 <= j < |order| && order[j] == w;
      assert i != j;
      var lo, hi := if i < j then i else j, if i < j then j else i;
      assert 0 <= lo < hi < |counts| && counts[lo] == 2 && counts[hi] == 2;
    }
    if i, j :| 0 <= i < j < |counts| && counts[i] == 2 && counts[j] == 2 {
      assert order[i] != order[j];
      var v: Rank := if order[i] < order[j] then order[i] else order[j];
      var w: Rank := if order[i] < order[j] then order[j] else order[i];
      assert RankCount(cards, order[i]) == 2 && RankCount(cards, order[j]) == 2;
      assert v < w && RankCount(cards, v) == 2 && RankCount(cards, w) == 2;
      assert exists v: Rank, w: Rank :: v < w && RankCount(cards, v) == 2 && RankCount(cards, w) == 2;
    }
  }

  lemma {:induction false} NoDuplicatesMultiplicity(s: seq<int>, x: int)
    requires NoDuplicates(s)
    ensures multiset(s)[x] == if x in s then 1 else 0
  {
    if s != [] {
      var tail := s[1..];
      assert s == [s[0]] + tail;
      assert NoDuplicates(tail) by {
        forall i, j | 0 <= i < j < |tail| ensures tail[i] != tail[j] {
          assert tail[i] == s[i + 1] && tail[j] == s[j + 1];
        }
      }
      NoDuplicatesMultiplicity(tail, x);
      assert s[0] !in tail by {
        forall i | 0 <= i < |tail| ensures tail[i] != s[0] {
          assert tail[i] == s[i + 1];
        }
      }
    }
  }

  /** Two duplicate-free sequences with the same elements have the same length. */
  lemma SameMembersSameLength(a: seq<int>, b: seq<int>)
    requires NoDuplicates(a) && NoDuplicates(b)
    requires forall x: int :: x in a <==> x in b
    ensures |a| == |b|
  {
    forall x: int ensures multiset(a)[x] == multiset(b)[x] {
      NoDuplicatesMultiplicity(a, x);
      NoDuplicatesMultiplicity(b, x);
    }
    assert multiset(a) == multiset(b);
    assert |multiset(a)| == |multiset(b)|;
  }

  /** There are as many sorted counts as distinct ranks. */
  lemma SortedCountsLength(cards: seq<Card>)
    ensures |SortedCounts(cards)| == |DistinctRanks(cards)|
  {
    TiebreakOrderIsKeySorted(cards);
    TiebreakOrderNoDuplicates(cards);
    DistinctRanksIsSortedSet(cards);
    SameMembersSameLength(TiebreakOrder(cards), DistinctRanks(cards));
  }

  /** A non-increasing sequence of positive counts adding up to five is one of the seven shapes of a five-card hand. */
  lemma PartitionsOfFive(c: seq<nat>)
    requires forall i, j :: 0 <= i < j < |c| ==> c[i] >= c[j]
    requires forall i :: 0 <= i < |c| ==> c[i] >= 1
    requires Sum(c) == 5
    ensures || c == [5] || c == [4, 1] || c == [3, 2] || c == [3, 1, 1]
            || c == [2, 2, 1] || c == [2, 1, 1, 1] || c == [1, 1, 1, 1, 1]
  {
    SumAtLeastLength(c);
    SumOfShort(c);
    if |c| == 1 {
      ShapeOfOne(c);
    } else if |c| == 2 {
      assert c[0] >= c[1] >= 1;
      ShapeOfTwo(c);
    } else if |c| == 3 {
      assert c[0] >= c[1] >= c[2] >= 1;
      ShapeOfThree(c);
    } else if |c| == 4 {
      assert c[0] >= c[1] && c[0] >= c[2] && c[0] >= c[3];
      assert c[1] >= 1 && c[2] >= 1 && c[3] >= 1;
      ShapeOfFour(c);
    } else if |c| == 5 {
      assert c[0] >= 1 && c[1] >= 1 && c[2] >= 1 && c[3] >= 1 && c[4] >= 1;
      ShapeOfFive(c);
    }
  }

  lemma ShapeOfOne(c: seq<nat>)
    requires |c| == 1 && c[0] == 5
    ensures c == [5]
  {
  }

  lemma ShapeOfTwo(c: seq<nat>)
    requires |c| == 2 && c[0] + c[1] == 5 && c[0] >= c[1] >= 1
    ensures c == [4, 1] || c == [3, 2]
  {
  }

  lemma ShapeOfThree(c: seq<nat>)
    requires |c| == 3 && c[0] + c[1] + c[2] == 5 && c[0] >= c[1] >= c[2] >= 1
    ensures c == [3, 1, 1] || c == [2, 2, 1]
  {
  }

  lemma ShapeOfFour(c: seq<nat>)
    requires |c| == 4 && c[0] + c[1] + c[2] + c[3] == 5
    requires c[0] >= c[1] && c[0] >= c[2] && c[0] >= c[3]
    requires c[1] >= 1 && c[2] >= 1 && c[3] >= 1
    ensures c == [2, 1, 1, 1]
  {
  }

  lemma ShapeOfFive(c: seq<nat>)
    requires |c| == 5 && c[0] + c[1] + c[2] + c[3] + c[4] == 5
    requires c[0] >= 1 && c[1] >= 1 && c[2] >= 1 && c[3] >= 1 && c[4] >= 1
    ensures c == [1, 1, 1, 1, 1]
  {
  }

  lemma SumOfShort(c: seq<nat>)
    requires |c| <= 5
    ensures |c| == 0 ==> Sum(c) == 0
    ensures |c| == 1 ==> Sum(c) == c[0]
    ensures |c| == 2 ==> Sum(c) == c[0] + c[1]
    ensures |c| == 3 ==> Sum(c) == c[0] + c[1] + c[2]
    ensures |c| == 4 ==> Sum(c) == c[0] + c[1] + c[2] + c[3]
    ensures |c| == 5 ==> Sum(c) == c[0] + c[1] + c[2] + c[3] + c[4]
  {
    assert c[0..] == c;
    if |c| >= 1 { SumStep(c, 0); }
    if |c| >= 2 { SumStep(c, 1); }
    if |c| >= 3 { SumStep(c, 2); }
    if |c| >= 4 { SumStep(c, 3); }
    if |c| >= 5 { SumStep(c, 4); }
    assert c[|c|..] == [];
  }

  lemma SumStep(c: seq<nat>, i: nat)
    requires i < |c|
    ensures Sum(c[i..]) == c[i] + Sum(c[i + 1..])
  {
    assert c[i..][1..] == c[i + 1..];
  }

  lemma {:induction false} SumAtLeastLength(c: seq<nat>)
    requires forall i :: 0 <= i < |c| ==> c[i] >= 1
    ensures Sum(c) >= |c|
  {
    if c != [] {
      SumAtLeastLength(c[1..]);
    }
  }
}
