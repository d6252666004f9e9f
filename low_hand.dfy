/**
 * `LowHandEvaluator` (evaluators.py:330-541): ace-to-eight lows for Hi-Lo.
 *
 * An ace counts one, every other rank its face value. A five-card hand
 * qualifies for low when its five ranks are different and none is above
 * eight; its low values, sorted from high to low, are compared as a tuple,
 * the smaller tuple being the better low. A hand that does not qualify
 * carries the sentinel tuple (99, 99, 99, 99, 99).
 */
module LowHandEvaluator {
  import opened Wrappers
  import opened Cards
  import opened Combinations
  import opened RankCounts
  import opened HandComparison
  import opened BestHandSearch
  import opened WildCardEvaluator

  /** `LOW_RANK_VALUES`: A is 1, 2 to 10 their face value, J 11, Q 12, K 13. */
  function LowRankValue(r: Rank): (v: int)
    ensures 1 <= v <= 13
  {
    if r == Ace then 1 else r + 2
  }

  /** `card_low_value`; every rank is in the table, so the default 99 is never used. */
  function CardLowValue(c: Card): (v: int)
    ensures 1 <= v <= 13
  {
    LowRankValue(c.rank)
  }

  /** Different ranks have different low values; an ace is the only 1 and A to 8 are the values up to 8. */
  lemma LowRankValueInjective(a: Rank, b: Rank)
    ensures LowRankValue(a) == LowRankValue(b) <==> a == b
    ensures LowRankValue(a) == 1 <==> a == Ace
    ensures LowRankValue(a) <= 8 <==> a == Ace || a <= Eight
  {
  }

  /** The tuple every non-qualifying result carries. */
  const NoLow: seq<int> := [99, 99, 99, 99, 99]

  /** `(qualifies, low_values, display_name)`. */
  datatype LowResult = LowResult(qualifies: bool, values: seq<int>, name: string)

  /** `[card_low_value(c) for c in cards]`. */
  function LowValues(cards: seq<Card>): (vs: seq<int>)
    ensures |vs| == |cards|
    ensures forall i :: 0 <= i < |cards| ==> vs[i] == CardLowValue(cards[i])
  {
    seq(|cards|, i requires 0 <= i < |cards| => CardLowValue(cards[i]))
  }

  /** `set(c['rank'] for c in cards)`. */
  function RankSet(cards: seq<Card>): set<Rank>
  {
    set c | c in cards :: c.rank
  }

  /** No two cards share a rank. */
  ghost predicate RanksDistinct(cards: seq<Card>)
  {
    forall i, j :: 0 <= i < j < |cards| ==> cards[i].rank != cards[j].rank
  }

  /** The rank set is as large as the hand exactly when no two cards share a rank. */
  lemma {:induction false} RankSetSize(cards: seq<Card>)
    ensures |RankSet(cards)| <= |cards|
    ensures |RankSet(cards)| == |cards| <==> RanksDistinct(cards)
  {
    if cards != [] {
      var tail := cards[1..];
      RankSetSize(tail);
      RankSetCons(cards);
      if cards[0].rank in RankSet(tail) {
        RepeatedHead(cards);
      } else {
        DistinctCons(cards);
      }
    }
  }

  /** The rank set of a hand is its first card's rank and the rank set of the rest. */
  lemma RankSetCons(cards: seq<Card>)
    requires cards != []
    ensures RankSet(cards) == RankSet(cards[1..]) + {cards[0].rank}
  {
    var tail := cards[1..];
    forall r ensures r in RankSet(cards) <==> r in RankSet(tail) + {cards[0].rank} {
      if r in RankSet(cards) && r != cards[0].rank {
        var c :| c in cards && c.rank == r;
        var i :| 0 <= i < |cards| && cards[i] == c;
        assert tail[i - 1] == c;
      }
    }
  }

  /** A first card whose rank recurs later breaks distinctness. */
  lemma RepeatedHead(cards: seq<Card>)
    requires cards != [] && cards[0].rank in RankSet(cards[1..])
    ensures !RanksDistinct(cards)
  {
    var tail := cards[1..];
    var c :| c in tail && c.rank == cards[0].rank;
    var i :| 0 <= i < |tail| && tail[i] == c;
    assert cards[i + 1] == c;
  }

  /** A first card whose rank does not recur leaves distinctness to the rest. */
  lemma DistinctCons(cards: seq<Card>)
    requires cards != [] && cards[0].rank !in RankSet(cards[1..])
    ensures RanksDistinct(cards) <==> RanksDistinct(cards[1..])
  {
    var tail := cards[1..];
    if RanksDistinct(tail) {
      forall i, j | 0 <= i < j < |cards| ensures cards[i].rank != cards[j].rank {
        if i == 0 {
          assert cards[j] == tail[j - 1];
          assert cards[j].rank in RankSet(tail);
        } else {
          assert cards[i] == tail[i - 1] && cards[j] == tail[j - 1];
        }
      }
    }
    if RanksDistinct(cards) {
      forall i, j | 0 <= i < j < |tail| ensures tail[i].rank != tail[j].rank {
        assert cards[i + 1] == tail[i] && cards[j + 1] == tail[j];
      }
    }
  }

  // ---------------------------------------------------------------------------
  // sorted(values, reverse=True)
  // ---------------------------------------------------------------------------

  /** Insert `x` before the first element it is not below. */
  function Insert(x: int, s: seq<int>): (r: seq<int>)
    ensures |r| == |s| + 1
    ensures multiset(r) == multiset(s) + multiset{x}
  {
    if s == [] || x >= s[0] then [x] + s
    else
      assert s == [s[0]] + s[1..];
      [s[0]] + Insert(x, s[1..])
  }

  /** The tail of a non-increasing sequence is non-increasing, and its head bounds it. */
  lemma NonIncreasingTail(s: seq<int>)
    requires s != [] && NonIncreasing(s)
    ensures NonIncreasing(s[1..])
    ensures forall y :: y in s[1..] ==> y <= s[0]
  {
    forall i, j | 0 <= i < j < |s[1..]| ensures s[1..][i] >= s[1..][j] {
      assert s[1..][i] == s[i + 1] && s[1..][j] == s[j + 1];
    }
    forall y | y in s[1..] ensures y <= s[0] {
      var k :| 0 <= k < |s[1..]| && s[1..][k] == y;
      assert s[k + 1] == y;
    }
  }

  /** A head at least every later value extends a non-increasing sequence. */
  lemma NonIncreasingCons(x: int, rest: seq<int>)
    requires NonIncreasing(rest) && forall y :: y in rest ==> y <= x
    ensures NonIncreasing([x] + rest)
  {
    var r := [x] + rest;
    forall i, j | 0 <= i < j < |r| ensures r[i] >= r[j] {
      assert r[j] == rest[j - 1] && rest[j - 1] in rest;
      if i > 0 {
        assert r[i] == rest[i - 1];
      }
    }
  }

  /** Inserting into a non-increasing sequence keeps it non-increasing. */
  lemma {:induction false} InsertSorted(x: int, s: seq<int>)
    requires NonIncreasing(s)
    ensures NonIncreasing(Insert(x, s))
  {
    if s == [] || x >= s[0] {
      if s != [] {
        NonIncreasingTail(s);
        assert forall y :: y in s ==> y <= x by {
          assert s == [s[0]] + s[1..];
        }
      }
      NonIncreasingCons(x, s);
    } else {
      var tail := s[1..];
      NonIncreasingTail(s);
      InsertSorted(x, tail);
      var rest := Insert(x, tail);
      forall y | y in rest ensures y <= s[0] {
        assert y in multiset(rest);
        if y != x {
          assert y in multiset(tail);
        }
      }
      NonIncreasingCons(s[0], rest);
    }
  }

  /** `sorted(s, reverse=True)`: the same values, from high to low. */
  function SortDesc(s: seq<int>): (r: seq<int>)
    ensures |r| == |s|
    ensures multiset(r) == multiset(s)
    ensures NonIncreasing(r)
    ensures forall x :: x in r <==> x in s
  {
    if s == [] then []
    else
      assert s == [s[0]] + s[1..];
      InsertSorted(s[0], SortDesc(s[1..]));
      var r := Insert(s[0], SortDesc(s[1..]));
      assert forall x :: x in r <==> x in multiset(r);
      r
  }

  /** A value that occurs at two positions occurs at least twice in the multiset. */
  lemma TwoCopies(s: seq<int>, i: int, j: int)
    requires 0 <= i < j < |s| && s[i] == s[j]
    ensures multiset(s)[s[i]] >= 2
  {
    assert s == s[..i] + [s[i]] + s[i + 1..j] + [s[j]] + s[j + 1..];
  }

  /** Sorting values that are all different gives a strictly decreasing sequence. */
  lemma SortDescStrict(s: seq<int>)
    requires NoDuplicates(s)
    ensures forall i, j :: 0 <= i < j < |SortDesc(s)| ==> SortDesc(s)[i] > SortDesc(s)[j]
  {
    var r := SortDesc(s);
    forall i, j | 0 <= i < j < |r| ensures r[i] > r[j] {
      if r[i] == r[j] {
        TwoCopies(r, i, j);
        NoDuplicatesMultiplicity(s, r[i]);
        assert false;
      }
    }
  }

  // ---------------------------------------------------------------------------
  // Display names
  // ---------------------------------------------------------------------------

  /** `str(n)` for a natural number. */
  function DecimalString(n: nat): string
  {
    if n < 10 then [('0' as int + n) as char]
    else DecimalString(n / 10) + [('0' as int + n % 10) as char]
  }

  /** `rank_names.get(v, str(v))`: 1 is written A, 2 to 8 as digits, anything else as its decimal. */
  function RankName(v: int): string
  {
    if v == 1 then "A"
    else if v >= 0 then DecimalString(v)
    else "-" + DecimalString(-v)
  }

  /** `'-'.join(rank_names.get(v, str(v)) for v in vs)`. */
  function Join(vs: seq<int>): string
  {
    if vs == [] then ""
    else if |vs| == 1 then RankName(vs[0])
    else RankName(vs[0]) + "-" + Join(vs[1..])
  }

  /** The display name `evaluate_low` gives a qualifying low. */
  function LowName(sv: seq<int>): string
    requires |sv| == 5
  {
    if sv == [5, 4, 3, 2, 1] then "The Wheel (A-2-3-4-5)"
    else if sv == [6, 4, 3, 2, 1] then "Six-Four Low"
    else if sv == [6, 5, 3, 2, 1] || sv == [6, 5, 4, 2, 1] || sv == [6, 5, 4, 3, 1] then "Six Low (" + Join(sv) + ")"
    else if sv[0] == 7 then "Seven Low (" + Join(sv) + ")"
    else if sv[0] == 8 then "Eight Low (" + Join(sv) + ")"
    else Join(sv) + " Low"
  }

  /**
   * The display name a low made with wild cards gets. Every value here is
   * at most eight, so the source's branch for a top value above eight is
   * never taken and is left out.
   */
  function WildLowName(sv: seq<int>): string
    requires |sv| >= 1
  {
    if sv == [5, 4, 3, 2, 1] then "The Wheel (A-2-3-4-5)"
    else RankName(sv[0]) + " Low (" + Join(sv) + ")"
  }

  // ---------------------------------------------------------------------------
  // evaluate_low and compare_low_hands
  // ---------------------------------------------------------------------------

  /**
   * `evaluate_low`: a hand of other than five cards, a paired hand and a
   * hand with a card above eight do not qualify and carry the sentinel;
   * otherwise the low values sorted from high to low.
   */
  function EvaluateLow(cards: seq<Card>): (r: LowResult)
    ensures !r.qualifies ==> r.values == NoLow
    ensures r.qualifies ==> |r.values| == 5 && NonIncreasing(r.values) && multiset(r.values) == multiset(LowValues(cards))
  {
    if |cards| != 5 then LowResult(false, NoLow, "No Low")
    else if |RankSet(cards)| != 5 then LowResult(false, NoLow, "No Low (paired)")
    else if exists c :: c in cards && CardLowValue(c) > 8 then LowResult(false, NoLow, "No Low (9+ card)")
    else
      var lows := LowValues(cards);
      var sv := SortDesc(lows);
      LowResult(true, sv, LowName(sv))
  }

  /** Cards of different ranks have low values that are all different. */
  lemma DistinctRanksDistinctValues(cards: seq<Card>)
    requires RanksDistinct(cards)
    ensures NoDuplicates(LowValues(cards))
  {
    forall i, j | 0 <= i < j < |cards| ensures LowValues(cards)[i] != LowValues(cards)[j] {
      LowRankValueInjective(cards[i].rank, cards[j].rank);
    }
  }

  /**
   * A hand qualifies exactly when it has five cards of five different
   * ranks, none above eight; its values then fall strictly from high to low
   * and lie between 1 and 8.
   */
  lemma EvaluateLowQualifies(cards: seq<Card>)
    ensures EvaluateLow(cards).qualifies <==>
      |cards| == 5 && RanksDistinct(cards) && forall i :: 0 <= i < |cards| ==> CardLowValue(cards[i]) <= 8
    ensures EvaluateLow(cards).qualifies ==>
      && (forall i, j :: 0 <= i < j < 5 ==> EvaluateLow(cards).values[i] > EvaluateLow(cards).values[j])
      && (forall i :: 0 <= i < 5 ==> 1 <= EvaluateLow(cards).values[i] <= 8)
  {
    RankSetSize(cards);
    if |cards| == 5 && RanksDistinct(cards) {
      assert (exists c :: c in cards && CardLowValue(c) > 8) <==> exists i :: 0 <= i < |cards| && CardLowValue(cards[i]) > 8;
      if EvaluateLow(cards).qualifies {
        DistinctRanksDistinctValues(cards);
        SortDescStrict(LowValues(cards));
        var sv := EvaluateLow(cards).values;
        forall i | 0 <= i < 5 ensures 1 <= sv[i] <= 8 {
          assert sv[i] in LowValues(cards);
          var k :| 0 <= k < 5 && LowValues(cards)[k] == sv[i];
        }
      }
    }
  }

  /** `compare_low_hands`: 1 when the first low is better, -1 when the second is, 0 for a tie. */
  function CompareLowHands(a: LowResult, b: LowResult): (r: int)
    ensures r == 1 || r == 0 || r == -1
  {
    if a.qualifies && !b.qualifies then 1
    else if b.qualifies && !a.qualifies then -1
    else if !a.qualifies && !b.qualifies then 0
    else if ListGreater(b.values, a.values) then 1
    else if ListGreater(a.values, b.values) then -1
    else 0
  }

  /**
   * Any qualifier beats any non-qualifier, two non-qualifiers tie, and of
   * two qualifiers the smaller tuple wins, ties being equal tuples;
   * swapping the hands negates the verdict.
   */
  lemma CompareLowHandsOrder(a: LowResult, b: LowResult)
    ensures CompareLowHands(b, a) == -CompareLowHands(a, b)
    ensures a.qualifies && !b.qualifies ==> CompareLowHands(a, b) == 1
    ensures !a.qualifies && !b.qualifies ==> CompareLowHands(a, b) == 0
    ensures a.qualifies && b.qualifies ==>
      && (CompareLowHands(a, b) == 1 <==> ListGreater(b.values, a.values))
      && (CompareLowHands(a, b) == 0 <==> a.values == b.values)
  {
    ListGreaterIrreflexive(a.values);
    ListGreaterTotal(a.values, b.values);
    if ListGreater(a.values, b.values) && ListGreater(b.values, a.values) {
      ListGreaterTransitive(a.values, b.values, a.values);
    }
  }

  // ---------------------------------------------------------------------------
  // Wild cards in a low
  // ---------------------------------------------------------------------------

  /** The ranks A, 2, ..., 8, in the order the source lists them. */
  const LowRanks: seq<Rank> := [Ace, 0, 1, 2, 3, 4, 5, 6]

  /** `[r for r in o if r not in used]`. */
  function AvailableFrom(o: seq<Rank>, used: set<Rank>): seq<Rank>
  {
    if o == [] then []
    else (if o[0] in used then [] else [o[0]]) + AvailableFrom(o[1..], used)
  }

  /** `available_low_ranks`: the ranks A to 8 no natural card holds, lowest first. */
  function AvailableLowRanks(used: set<Rank>): seq<Rank>
  {
    AvailableFrom(LowRanks, used)
  }

  /** `[LOW_RANK_VALUES[r] for r in rs]`. */
  function RankLowValues(rs: seq<Rank>): (vs: seq<int>)
    ensures |vs| == |rs|
    ensures forall i :: 0 <= i < |rs| ==> vs[i] == LowRankValue(rs[i])
  {
    seq(|rs|, i requires 0 <= i < |rs| => LowRankValue(rs[i]))
  }

  /** The low values of `o` rise strictly along it. */
  ghost predicate RisingValues(o: seq<Rank>)
  {
    forall i, j :: 0 <= i < j < |o| ==> LowRankValue(o[i]) < LowRankValue(o[j])
  }

  /** The tail of a rising sequence rises, lies above its head and does not hold it. */
  lemma RisingTail(o: seq<Rank>)
    requires o != [] && RisingValues(o)
    ensures RisingValues(o[1..])
    ensures forall r :: r in o[1..] ==> LowRankValue(o[0]) < LowRankValue(r)
    ensures o[0] !in o[1..]
  {
    var tail := o[1..];
    forall i, j | 0 <= i < j < |tail| ensures LowRankValue(tail[i]) < LowRankValue(tail[j]) {
      assert tail[i] == o[i + 1] && tail[j] == o[j + 1];
    }
    forall r | r in tail ensures LowRankValue(o[0]) < LowRankValue(r) {
      var k :| 0 <= k < |tail| && tail[k] == r;
      assert o[k + 1] == r;
    }
  }

  /** A head below every later value extends a rising sequence. */
  lemma RisingCons(x: Rank, rest: seq<Rank>)
    requires RisingValues(rest) && forall r :: r in rest ==> LowRankValue(x) < LowRankValue(r)
    ensures RisingValues([x] + rest)
  {
    var r := [x] + rest;
    forall i, j | 0 <= i < j < |r| ensures LowRankValue(r[i]) < LowRankValue(r[j]) {
      assert r[j] == rest[j - 1] && rest[j - 1] in rest;
      if i > 0 {
        assert r[i] == rest[i - 1];
      }
    }
  }

  /**
   * Filtering keeps exactly the unused ranks, keeps their order, and drops
   * at most as many ranks as `used` holds.
   */
  lemma {:induction false} AvailableFromFacts(o: seq<Rank>, used: set<Rank>)
    requires RisingValues(o)
    ensures forall r :: r in AvailableFrom(o, used) <==> r in o && r !in used
    ensures RisingValues(AvailableFrom(o, used))
    ensures |AvailableFrom(o, used)| + |used| >= |o|
  {
    if o != [] {
      var tail := o[1..];
      RisingTail(o);
      AvailableFromFacts(tail, used);
      var rest := AvailableFrom(tail, used);
      assert o == [o[0]] + tail;
      if o[0] in used {
        AvailableFromFacts(tail, used - {o[0]});
        AvailableIgnoresAbsent(tail, used, o[0]);
        assert |used - {o[0]}| == |used| - 1;
      } else {
        RisingCons(o[0], rest);
      }
    }
  }

  /** Whether a rank that does not occur in `o` is used makes no difference to the filter. */
  lemma {:induction false} AvailableIgnoresAbsent(o: seq<Rank>, used: set<Rank>, x: Rank)
    requires x !in o
    ensures AvailableFrom(o, used - {x}) == AvailableFrom(o, used)
  {
    if o != [] {
      assert x !in o[1..] by {
        forall k | 0 <= k < |o[1..]| ensures o[1..][k] != x {
          assert o[1..][k] == o[k + 1];
        }
      }
      AvailableIgnoresAbsent(o[1..], used, x);
    }
  }

  /**
   * The wild branch for one combination, given its natural cards and its
   * number `w` of wild cards: skipped (None) when a natural card is above
   * eight, when two natural cards pair, or when fewer than `w` ranks of A to
   * 8 are free; otherwise the wild cards take the lowest free ranks.
   */
  function WildLow(naturals: seq<Card>, w: nat): (o: Option<LowResult>)
    requires w >= 1
    ensures o.Some? ==> o.value.qualifies
  {
    var nv := LowValues(naturals);
    if exists v :: v in nv && v > 8 then None
    else if |RankSet(naturals)| != |naturals| then None
    else
      var avail := AvailableLowRanks(RankSet(naturals));
      if |avail| < w then None
      else
        var all := nv + RankLowValues(avail[..w]);
        var sv := SortDesc(all);
        Some(LowResult(true, sv, WildLowName(sv)))
  }

  /**
   * What a combination offers the search for the best low: its own
   * evaluation when it holds no wild card and qualifies, the wild branch
   * when it holds one.
   */
  function Offer(combo: seq<Card>, wild: set<Rank>): (o: Option<LowResult>)
    ensures o.Some? ==> o.value.qualifies
  {
    var wi := WildPositions(combo, wild, |combo|);
    if wi == [] then Qualifying(EvaluateLow(combo))
    else WildLow(NaturalCards(combo, wild, |combo|), |wi|)
  }

  /** A result counts for the search only when it qualifies. */
  function Qualifying(r: LowResult): (o: Option<LowResult>)
    ensures o.Some? <==> r.qualifies
    ensures o.Some? ==> o.value == r
  {
    if r.qualifies then Some(r) else None
  }

  /** Without wild ranks every combination offers exactly its own qualifying evaluation. */
  lemma OfferWithoutWilds(combo: seq<Card>)
    ensures Offer(combo, {}) == Qualifying(EvaluateLow(combo))
  {
    WildPositionsFacts(combo, {}, |combo|);
    if WildPositions(combo, {}, |combo|) != [] {
      assert WildPositions(combo, {}, |combo|)[0] in WildPositions(combo, {}, |combo|);
      assert false;
    }
  }

  /**
   * The wild branch of a five-card combination with `w` wild cards is
   * skipped exactly when a natural card is above eight or two natural cards
   * pair: there are always enough free low ranks.
   */
  lemma WildLowSkipped(naturals: seq<Card>, w: nat)
    requires w >= 1 && |naturals| + w == 5
    ensures WildLow(naturals, w).None? <==>
      (exists i :: 0 <= i < |naturals| && CardLowValue(naturals[i]) > 8) || !RanksDistinct(naturals)
  {
    RankSetSize(naturals);
    NaturalAboveEight(naturals);
    ChosenLowest(RankSet(naturals), w);
  }

  /**
   * Otherwise the low is the natural values together with the values of `w`
   * free ranks of A to 8 that are the lowest free ones, all five different,
   * sorted strictly downwards.
   */
  lemma WildLowMade(naturals: seq<Card>, w: nat)
    requires w >= 1 && |naturals| + w == 5 && WildLow(naturals, w).Some?
    ensures |WildLow(naturals, w).value.values| == 5
    ensures forall i, j :: 0 <= i < j < 5 ==> WildLow(naturals, w).value.values[i] > WildLow(naturals, w).value.values[j]
    ensures exists chosen: seq<Rank> ::
      && |chosen| == w
      && LowestFree(chosen, RankSet(naturals))
      && multiset(WildLow(naturals, w).value.values) == multiset(LowValues(naturals) + RankLowValues(chosen))
  {
    var used := RankSet(naturals);
    RankSetSize(naturals);
    ChosenLowest(used, w);
    var chosen := AvailableLowRanks(used)[..w];
    var all := LowValues(naturals) + RankLowValues(chosen);
    assert WildLow(naturals, w).value.values == SortDesc(all);
    WildValuesDistinct(naturals, chosen);
    SortDescStrict(all);
    assert |chosen| == w && LowestFree(chosen, used) && multiset(SortDesc(all)) == multiset(all);
  }

  /** The ranks `chosen` are free ranks of A to 8, and every other free rank of A to 8 is above each of them. */
  ghost predicate LowestFree(chosen: seq<Rank>, used: set<Rank>)
  {
    && (forall i :: 0 <= i < |chosen| ==> chosen[i] in LowRanks && chosen[i] !in used)
    && (forall r, i :: r in LowRanks && r !in used && r !in chosen && 0 <= i < |chosen| ==>
          LowRankValue(chosen[i]) < LowRankValue(r))
  }

  /** `any(v > 8 for v in non_wild_values)` holds exactly when some natural card is above eight. */
  lemma NaturalAboveEight(naturals: seq<Card>)
    ensures (exists v :: v in LowValues(naturals) && v > 8) <==> exists i :: 0 <= i < |naturals| && CardLowValue(naturals[i]) > 8
  {
    var nv := LowValues(naturals);
    if exists v :: v in nv && v > 8 {
      var v :| v in nv && v > 8;
      var i :| 0 <= i < |nv| && nv[i] == v;
    }
    if exists i :: 0 <= i < |naturals| && CardLowValue(naturals[i]) > 8 {
      var i :| 0 <= i < |naturals| && CardLowValue(naturals[i]) > 8;
      assert nv[i] in nv;
    }
  }

  /**
   * With at most five cards between the naturals and the wilds, at least
   * three more low ranks are free than there are wild cards, and the first
   * `w` free ones are free ranks of A to 8, rising, below every other free one.
   */
  lemma ChosenLowest(used: set<Rank>, w: nat)
    requires |used| + w <= 5
    ensures |AvailableLowRanks(used)| >= w + 3
    ensures RisingValues(AvailableLowRanks(used)[..w])
    ensures LowestFree(AvailableLowRanks(used)[..w], used)
  {
    var avail := AvailableLowRanks(used);
    LowRanksRise();
    AvailableFromFacts(LowRanks, used);
    RisingPrefix(avail, w);
    var chosen := avail[..w];
    forall i | 0 <= i < w ensures chosen[i] in LowRanks && chosen[i] !in used {
      assert chosen[i] == avail[i] && avail[i] in avail;
    }
    forall r, i | r in LowRanks && r !in used && r !in chosen && 0 <= i < w
      ensures LowRankValue(chosen[i]) < LowRankValue(r)
    {
      RisingPrefixBelow(avail, w, r);
    }
  }

  /** A to 8 in the order `available_low_ranks` lists them, rising in low value. */
  lemma LowRanksRise()
    ensures |LowRanks| == 8 && RisingValues(LowRanks)
  {
    forall i, j | 0 <= i < j < 8 ensures LowRankValue(LowRanks[i]) < LowRankValue(LowRanks[j]) {
      assert LowRankValue(LowRanks[i]) == i + 1 && LowRankValue(LowRanks[j]) == j + 1;
    }
  }

  /** A prefix of a rising sequence rises. */
  lemma RisingPrefix(o: seq<Rank>, w: nat)
    requires w <= |o| && RisingValues(o)
    ensures RisingValues(o[..w])
  {
    forall i, j | 0 <= i < j < w ensures LowRankValue(o[..w][i]) < LowRankValue(o[..w][j]) {
      assert o[..w][i] == o[i] && o[..w][j] == o[j];
    }
  }

  /** In a rising sequence, every value after the first `w` lies above all of the first `w`. */
  lemma RisingPrefixBelow(o: seq<Rank>, w: nat, r: Rank)
    requires w <= |o| && RisingValues(o) && r in o && r !in o[..w]
    ensures forall i :: 0 <= i < w ==> LowRankValue(o[..w][i]) < LowRankValue(r)
  {
    var p :| 0 <= p < |o| && o[p] == r;
    forall i | 0 <= i < w ensures LowRankValue(o[..w][i]) < LowRankValue(r) {
      assert o[..w][i] == o[i];
    }
  }

  /** Natural cards of different ranks and free ranks rising in value give five different values. */
  lemma WildValuesDistinct(naturals: seq<Card>, chosen: seq<Rank>)
    requires RanksDistinct(naturals) && RisingValues(chosen)
    requires forall i :: 0 <= i < |chosen| ==> chosen[i] !in RankSet(naturals)
    ensures NoDuplicates(LowValues(naturals) + RankLowValues(chosen))
  {
    var nv := LowValues(naturals);
    var all := nv + RankLowValues(chosen);
    forall i, j | 0 <= i < j < |all| ensures all[i] != all[j] {
      if j < |nv| {
        LowRankValueInjective(naturals[i].rank, naturals[j].rank);
      } else if i < |nv| {
        assert naturals[i] in naturals;
        LowRankValueInjective(naturals[i].rank, chosen[j - |nv|]);
      } else {
        assert all[i] == LowRankValue(chosen[i - |nv|]) && all[j] == LowRankValue(chosen[j - |nv|]);
      }
    }
  }

  // ---------------------------------------------------------------------------
  // best_low_hand and best_low_hand_with_wilds
  // ---------------------------------------------------------------------------

  /** The best low so far and the five cards that make it. */
  datatype Pick = Pick(low: LowResult, cards: seq<Card>)

  /** `(qualifies, low_values, display_name, best_5_cards)`; `None` for the cards is the source's `None`. */
  datatype LowHand = LowHand(qualifies: bool, values: seq<int>, name: string, cards: Option<seq<Card>>)

  /** Every choice picks five positions of the pool. */
  ghost predicate ValidChoices(cs: seq<seq<nat>>, n: nat)
  {
    forall j :: 0 <= j < |cs| ==> IsCombo(cs[j], 5, 0, n)
  }

  /** One step of either search: an offered low replaces the best only when its tuple is smaller. */
  function Consider(best: Option<Pick>, offer: Option<LowResult>, cards: seq<Card>): Option<Pick>
  {
    if offer.Some? && (best.None? || ListGreater(best.value.low.values, offer.value.values)) then Some(Pick(offer.value, cards))
    else best
  }

  /** The best low after the first `n` combinations of `cs`. */
  function LowScan(offer: seq<Card> -> Option<LowResult>, pool: seq<Card>, cs: seq<seq<nat>>, n: nat): Option<Pick>
    requires n <= |cs| && ValidChoices(cs, |pool|)
  {
    if n == 0 then None
    else Consider(LowScan(offer, pool, cs, n - 1), offer(Select(pool, cs[n - 1])), Select(pool, cs[n - 1]))
  }

  /** The value returned when the scan ends: the sentinel "No Low" when nothing qualified. */
  function Finish(best: Option<Pick>): LowHand
  {
    match best
    case None => LowHand(false, NoLow, "No Low", None)
    case Some(p) => LowHand(true, p.low.values, p.low.name, Some(p.cards))
  }

  /** `Offer` with the wild ranks fixed, as the search applies it to each combination. */
  function OfferWith(wild: set<Rank>): seq<Card> -> Option<LowResult>
  {
    combo => Offer(combo, wild)
  }

  /** What the search over every five-card combination of `allCards` returns. */
  function LowOutcome(allCards: seq<Card>, wild: set<Rank>): LowHand
  {
    var cs := FiveCardChoices(|allCards|);
    Finish(LowScan(OfferWith(wild), allCards, cs, |cs|))
  }

  /** If `b` is not above `o` but above `p`, then `o` is above `p`. */
  lemma ListGreaterStep(b: seq<int>, o: seq<int>, p: seq<int>)
    requires !ListGreater(b, o) && ListGreater(b, p)
    ensures ListGreater(o, p)
  {
    ListGreaterTotal(b, o);
    if ListGreater(o, b) {
      ListGreaterTransitive(o, b, p);
    }
  }

  /** None of the first `n` combinations offers a low. */
  ghost predicate NoneOffered(offer: seq<Card> -> Option<LowResult>, pool: seq<Card>, cs: seq<seq<nat>>, n: nat)
    requires n <= |cs| && ValidChoices(cs, |pool|)
  {
    forall j :: 0 <= j < n ==> offer(Select(pool, cs[j])).None?
  }

  /** No low offered by the first `n` combinations has a smaller tuple than `p`. */
  ghost predicate Smallest(offer: seq<Card> -> Option<LowResult>, pool: seq<Card>, cs: seq<seq<nat>>, n: nat, p: Pick)
    requires n <= |cs| && ValidChoices(cs, |pool|)
  {
    forall j :: 0 <= j < n && offer(Select(pool, cs[j])).Some? ==>
      !ListGreater(p.low.values, offer(Select(pool, cs[j])).value.values)
  }

  /** `p` is what combination `k` offers, and every earlier offer has a larger tuple. */
  ghost predicate FirstAt(offer: seq<Card> -> Option<LowResult>, pool: seq<Card>, cs: seq<seq<nat>>, k: nat, p: Pick)
    requires k < |cs| && ValidChoices(cs, |pool|)
  {
    && p.cards == Select(pool, cs[k])
    && offer(Select(pool, cs[k])) == Some(p.low)
    && forall j :: 0 <= j < k && offer(Select(pool, cs[j])).Some? ==>
         ListGreater(offer(Select(pool, cs[j])).value.values, p.low.values)
  }

  /**
   * The scan finds the smallest offered tuple, and the first combination
   * that offers it: nothing is found exactly when nothing is offered.
   */
  lemma {:induction false} LowScanSmallest(offer: seq<Card> -> Option<LowResult>, pool: seq<Card>, cs: seq<seq<nat>>, n: nat)
    requires n <= |cs| && ValidChoices(cs, |pool|)
    ensures LowScan(offer, pool, cs, n).None? <==> NoneOffered(offer, pool, cs, n)
    ensures LowScan(offer, pool, cs, n).Some? ==>
      && Smallest(offer, pool, cs, n, LowScan(offer, pool, cs, n).value)
      && exists k :: 0 <= k < n && FirstAt(offer, pool, cs, k, LowScan(offer, pool, cs, n).value)
  {
    if n > 0 {
      LowScanSmallest(offer, pool, cs, n - 1);
      var b := LowScan(offer, pool, cs, n - 1);
      var o := offer(Select(pool, cs[n - 1]));
      if o.Some? && (b.None? || ListGreater(b.value.low.values, o.value.values)) {
        NewLowStep(offer, pool, cs, n, b, o.value);
      } else if b.Some? {
        var k :| 0 <= k < n - 1 && FirstAt(offer, pool, cs, k, b.value);
        assert FirstAt(offer, pool, cs, k, b.value);
      }
    }
  }

  /** A combination whose low replaces the best is the smallest so far, and the first to offer its tuple. */
  lemma NewLowStep(offer: seq<Card> -> Option<LowResult>, pool: seq<Card>, cs: seq<seq<nat>>, n: nat, b: Option<Pick>, o: LowResult)
    requires 0 < n <= |cs| && ValidChoices(cs, |pool|)
    requires offer(Select(pool, cs[n - 1])) == Some(o)
    requires b.None? ==> NoneOffered(offer, pool, cs, n - 1)
    requires b.Some? ==> Smallest(offer, pool, cs, n - 1, b.value) && ListGreater(b.value.low.values, o.values)
    ensures Smallest(offer, pool, cs, n, Pick(o, Select(pool, cs[n - 1])))
    ensures FirstAt(offer, pool, cs, n - 1, Pick(o, Select(pool, cs[n - 1])))
  {
    ListGreaterIrreflexive(o.values);
    forall j | 0 <= j < n - 1 && offer(Select(pool, cs[j])).Some?
      ensures !ListGreater(o.values, offer(Select(pool, cs[j])).value.values)
      ensures ListGreater(offer(Select(pool, cs[j])).value.values, o.values)
    {
      var oj := offer(Select(pool, cs[j])).value.values;
      if ListGreater(o.values, oj) {
        ListGreaterTransitive(b.value.low.values, o.values, oj);
      }
      ListGreaterStep(b.value.low.values, oj, o.values);
    }
  }

  /**
   * `best_low_hand` and `best_low_hand_with_wilds`: the result qualifies
   * exactly when some five-card combination offers a low; it is then the
   * smallest tuple any combination offers, with the cards of a combination
   * that offers it, and otherwise the sentinel "No Low" with no cards.
   */
  lemma LowOutcomeIsSmallest(allCards: seq<Card>, wild: set<Rank>)
    ensures LowOutcome(allCards, wild).qualifies <==>
      exists c :: IsCombo(c, 5, 0, |allCards|) && Offer(Select(allCards, c), wild).Some?
    ensures !LowOutcome(allCards, wild).qualifies ==> LowOutcome(allCards, wild) == LowHand(false, NoLow, "No Low", None)
    ensures LowOutcome(allCards, wild).qualifies ==> exists c :: (
      && IsCombo(c, 5, 0, |allCards|)
      && LowOutcome(allCards, wild).cards == Some(Select(allCards, c))
      && Offer(Select(allCards, c), wild) == Some(LowResult(true, LowOutcome(allCards, wild).values, LowOutcome(allCards, wild).name)))
    ensures forall c :: IsCombo(c, 5, 0, |allCards|) && Offer(Select(allCards, c), wild).Some? ==>
      !ListGreater(LowOutcome(allCards, wild).values, Offer(Select(allCards, c), wild).value.values)
  {
    var cs := FiveCardChoices(|allCards|);
    var out := LowOutcome(allCards, wild);
    var k := LowFromScan(allCards, wild, cs, out);
    if out.qualifies {
      assert IsCombo(cs[k], 5, 0, |allCards|);
    }
    forall c | IsCombo(c, 5, 0, |allCards|) && Offer(Select(allCards, c), wild).Some?
      ensures exists j :: 0 <= j < |cs| && Offer(Select(allCards, cs[j]), wild).Some?
      ensures !ListGreater(out.values, Offer(Select(allCards, c), wild).value.values)
    {
      CombosAreExactlyTheSubsets(5, 0, |allCards|, c);
      var j :| 0 <= j < |cs| && cs[j] == c;
    }
  }

  /**
   * The outcome of a scan, stated of the choices scanned: it qualifies when
   * some choice offers a low, then with the `k`-th choice's cards and low,
   * and no offered low is smaller.
   */
  lemma LowFromScan(allCards: seq<Card>, wild: set<Rank>, cs: seq<seq<nat>>, out: LowHand) returns (k: nat)
    requires ValidChoices(cs, |allCards|)
    requires out == Finish(LowScan(OfferWith(wild), allCards, cs, |cs|))
    ensures out.qualifies <==> exists j :: 0 <= j < |cs| && Offer(Select(allCards, cs[j]), wild).Some?
    ensures !out.qualifies ==> out == LowHand(false, NoLow, "No Low", None)
    ensures out.qualifies ==>
      && k < |cs| && out.cards == Some(Select(allCards, cs[k]))
      && Offer(Select(allCards, cs[k]), wild) == Some(LowResult(true, out.values, out.name))
    ensures forall j :: 0 <= j < |cs| && Offer(Select(allCards, cs[j]), wild).Some? ==>
      !ListGreater(out.values, Offer(Select(allCards, cs[j]), wild).value.values)
  {
    LowScanSmallest(OfferWith(wild), allCards, cs, |cs|);
    var r := LowScan(OfferWith(wild), allCards, cs, |cs|);
    k := 0;
    if r.Some? {
      k :| 0 <= k < |cs| && FirstAt(OfferWith(wild), allCards, cs, k, r.value);
    }
  }

  /** `best_low_hand`: score every combination in turn and keep a qualifying low only when its tuple is smaller. */
  method BestLowHand(allCards: seq<Card>) returns (r: LowHand)
    ensures r == LowOutcome(allCards, {})
  {
    var cs := FiveCardChoices(|allCards|);
    var best: Option<Pick> := None;
    for i := 0 to |cs|
      invariant best == LowScan(OfferWith({}), allCards, cs, i)
    {
      var combo := Select(allCards, cs[i]);
      var low := EvaluateLow(combo);
      OfferWithoutWilds(combo);
      if low.qualifies {
        if best.None? || ListGreater(best.value.low.values, low.values) {
          best := Some(Pick(low, combo));
        }
      }
    }
    r := Finish(best);
  }

  /**
   * `best_low_hand_with_wilds`: `best_low_hand` when no rank is wild;
   * otherwise the same search over what each combination offers.
   */
  method BestLowHandWithWilds(allCards: seq<Card>, wild: set<Rank>) returns (r: LowHand)
    ensures r == LowOutcome(allCards, wild)
  {
    if wild == {} {
      r := BestLowHand(allCards);
      return;
    }
    var cs := FiveCardChoices(|allCards|);
    var best: Option<Pick> := None;
    for i := 0 to |cs|
      invariant best == LowScan(OfferWith(wild), allCards, cs, i)
    {
      var combo := Select(allCards, cs[i]);
      var offer := Offer(combo, wild);
      if offer.Some? && (best.None? || ListGreater(best.value.low.values, offer.value.values)) {
        best := Some(Pick(offer.value, combo));
      }
    }
    r := Finish(best);
  }
}
