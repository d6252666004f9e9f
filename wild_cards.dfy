/**
 * `WildCardEvaluator` (evaluators.py:186-324): hands with wild ranks.
 *
 * `expand_wild_cards` replaces every wild card of a hand by every card not
 * already held among its natural cards, recursively, and keeps the first
 * `cap` hands (10000 in the source). `best_hand_with_wilds` scores every
 * five-card combination: a combination whose natural cards all share one
 * rank is Five of a Kind of that rank outright (the scarcity pre-check),
 * the others are expanded and each expanded hand is evaluated.
 */
module WildCardEvaluator {
  import opened Wrappers
  import opened Cards
  import opened Combinations
  import opened RankCounts
  import opened HandEvaluator
  import opened HandComparison
  import opened BestHandSearch

  // ---------------------------------------------------------------------------
  // The parts of a hand
  // ---------------------------------------------------------------------------

  /** `wild_indices` after the first `n` cards: the positions holding a wild rank, in order. */
  function WildPositions(cards: seq<Card>, wild: set<Rank>, n: nat): (wi: seq<nat>)
    requires n <= |cards|
    ensures forall i :: 0 <= i < |wi| ==> wi[i] < n
  {
    if n == 0 then []
    else WildPositions(cards, wild, n - 1) + (if cards[n - 1].rank in wild then [n - 1] else [])
  }

  /** `non_wild_cards` after the first `n` cards: the natural cards, in order. */
  function NaturalCards(cards: seq<Card>, wild: set<Rank>, n: nat): seq<Card>
    requires n <= |cards|
  {
    if n == 0 then []
    else NaturalCards(cards, wild, n - 1) + (if cards[n - 1].rank in wild then [] else [cards[n - 1]])
  }

  /** The wild positions are distinct positions of the hand. */
  ghost predicate ValidPositions(wi: seq<nat>, hand: seq<Card>)
  {
    && (forall i :: 0 <= i < |wi| ==> wi[i] < |hand|)
    && (forall i, j :: 0 <= i < j < |wi| ==> wi[i] < wi[j])
  }

  /** The wild positions are exactly the positions of wild cards, in increasing order. */
  lemma {:induction false} WildPositionsFacts(cards: seq<Card>, wild: set<Rank>, n: nat)
    requires n <= |cards|
    ensures forall p :: p in WildPositions(cards, wild, n) <==> 0 <= p < n && cards[p].rank in wild
    ensures ValidPositions(WildPositions(cards, wild, n), cards)
  {
    if n > 0 {
      WildPositionsFacts(cards, wild, n - 1);
    }
  }

  /** The natural cards are the other cards, so the two parts account for every card. */
  lemma {:induction false} NaturalCardsFacts(cards: seq<Card>, wild: set<Rank>, n: nat)
    requires n <= |cards|
    ensures |NaturalCards(cards, wild, n)| + |WildPositions(cards, wild, n)| == n
    ensures forall c :: c in NaturalCards(cards, wild, n) ==> c.rank !in wild
    ensures forall p :: 0 <= p < n && cards[p].rank !in wild ==> cards[p] in NaturalCards(cards, wild, n)
  {
    if n > 0 {
      NaturalCardsFacts(cards, wild, n - 1);
    }
  }

  /** The set of cards a sequence holds. */
  function CardSet(s: seq<Card>): set<Card>
  {
    set c | c in s
  }

  lemma {:induction false} CardSetSize(s: seq<Card>)
    ensures |CardSet(s)| <= |s|
  {
    if s != [] {
      CardSetSize(s[1..]);
      assert CardSet(s) == CardSet(s[1..]) + {s[0]} by {
        forall c ensures c in CardSet(s) <==> c in CardSet(s[1..]) + {s[0]} {
          if c in s && c != s[0] {
            var i :| 0 <= i < |s| && s[i] == c;
            assert s[1..][i - 1] == c;
          }
        }
      }
    }
  }

  // ---------------------------------------------------------------------------
  // generate_substitutions
  // ---------------------------------------------------------------------------

  /**
   * The `j`-th substitute tried for a wild card: `for rank in RANKS: for
   * suit in SUITS`, so ranks vary slowest.
   */
  function SubCard(j: nat): (c: Card)
    requires j < 52
    ensures 4 * c.rank + c.suit == j
  {
    Card(j / 4, j % 4)
  }

  lemma SubCardAt(r: Rank, s: Suit)
    ensures SubCard(4 * r + s) == Card(r, s)
  {
  }

  /**
   * `generate_substitutions(w, hand, used)`: the hands it appends, in order.
   * With no wild position left it appends the hand itself; otherwise it
   * tries all 52 substitutes for position `wi[w]`.
   */
  function Substitutions(wi: seq<nat>, w: nat, hand: seq<Card>, used: set<Card>): seq<seq<Card>>
    requires w <= |wi|
    requires forall i :: 0 <= i < |wi| ==> wi[i] < |hand|
    decreases |wi| - w, 53
  {
    if w == |wi| then [hand] else Tried(wi, w, hand, used, 52)
  }

  /** The hands appended while trying the first `j` substitutes for position `wi[w]`; used cards are skipped. */
  function Tried(wi: seq<nat>, w: nat, hand: seq<Card>, used: set<Card>, j: nat): seq<seq<Card>>
    requires w < |wi| && j <= 52
    requires forall i :: 0 <= i < |wi| ==> wi[i] < |hand|
    decreases |wi| - w, j
  {
    if j == 0 then []
    else
      var c := SubCard(j - 1);
      Tried(wi, w, hand, used, j - 1)
        + (if c in used then [] else Substitutions(wi, w + 1, hand[wi[w] := c], used + {c}))
  }

  /**
   * `h` is `hand` with the wild positions `wi[w..]` filled by cards that are
   * pairwise distinct and not in `used`, and every other position as it was.
   */
  ghost predicate Fills(h: seq<Card>, hand: seq<Card>, wi: seq<nat>, w: nat, used: set<Card>)
    requires w <= |wi| && ValidPositions(wi, hand)
  {
    && |h| == |hand|
    && (forall p :: 0 <= p < |hand| && p !in wi[w..] ==> h[p] == hand[p])
    && (forall i :: w <= i < |wi| ==> h[wi[i]] !in used)
    && (forall i, j :: w <= i < j < |wi| ==> h[wi[i]] != h[wi[j]])
  }

  /** A hand appended while trying substitutes comes from the branch of some unused substitute `k`. */
  lemma {:induction false} TriedFrom(wi: seq<nat>, w: nat, hand: seq<Card>, used: set<Card>, j: nat, h: seq<Card>)
    returns (k: nat)
    requires w < |wi| && j <= 52
    requires forall i :: 0 <= i < |wi| ==> wi[i] < |hand|
    requires h in Tried(wi, w, hand, used, j)
    ensures k < j && SubCard(k) !in used
    ensures h in Substitutions(wi, w + 1, hand[wi[w] := SubCard(k)], used + {SubCard(k)})
  {
    TriedLast(wi, w, hand, used, j, h);
    if h in Tried(wi, w, hand, used, j - 1) {
      k := TriedFrom(wi, w, hand, used, j - 1, h);
    } else {
      k := j - 1;
    }
  }

  /** Every hand of the branch of an unused substitute `k < j` is appended. */
  lemma {:induction false} TriedHas(wi: seq<nat>, w: nat, hand: seq<Card>, used: set<Card>, j: nat, k: nat, h: seq<Card>)
    requires w < |wi| && k < j <= 52
    requires forall i :: 0 <= i < |wi| ==> wi[i] < |hand|
    requires SubCard(k) !in used
    requires h in Substitutions(wi, w + 1, hand[wi[w] := SubCard(k)], used + {SubCard(k)})
    ensures h in Tried(wi, w, hand, used, j)
  {
    TriedLast(wi, w, hand, used, j, h);
    if k < j - 1 {
      TriedHas(wi, w, hand, used, j - 1, k, h);
    }
  }

  /** The last substitute tried for position `wi[w]` adds the hands of its own branch. */
  lemma TriedLast(wi: seq<nat>, w: nat, hand: seq<Card>, used: set<Card>, j: nat, h: seq<Card>)
    requires w < |wi| && 0 < j <= 52
    requires forall i :: 0 <= i < |wi| ==> wi[i] < |hand|
    ensures h in Tried(wi, w, hand, used, j) <==>
      || h in Tried(wi, w, hand, used, j - 1)
      || (SubCard(j - 1) !in used
          && h in Substitutions(wi, w + 1, hand[wi[w] := SubCard(j - 1)], used + {SubCard(j - 1)}))
  {
  }

  /** Every appended hand fills the wild positions with distinct unused cards. */
  lemma {:induction false} SubstitutionsSound(wi: seq<nat>, w: nat, hand: seq<Card>, used: set<Card>, h: seq<Card>)
    requires w <= |wi| && ValidPositions(wi, hand)
    requires h in Substitutions(wi, w, hand, used)
    ensures Fills(h, hand, wi, w, used)
    decreases |wi| - w
  {
    if w < |wi| {
      var k := TriedFrom(wi, w, hand, used, 52, h);
      var c := SubCard(k);
      var hand' := hand[wi[w] := c];
      SubstitutionsSound(wi, w + 1, hand', used + {c}, h);
      assert wi[w] !in wi[w + 1..];
      assert h[wi[w]] == c;
      forall p | 0 <= p < |hand| && p !in wi[w..] ensures h[p] == hand[p] {
        assert p !in wi[w + 1..] && p != wi[w];
      }
      forall i | w < i < |wi| ensures h[wi[i]] != c && h[wi[i]] !in used {
        assert wi[i] in wi[w + 1..];
      }
    }
  }

  /** Every hand that fills the wild positions with distinct unused cards is appended. */
  lemma {:induction false} SubstitutionsComplete(wi: seq<nat>, w: nat, hand: seq<Card>, used: set<Card>, h: seq<Card>)
    requires w <= |wi| && ValidPositions(wi, hand)
    requires Fills(h, hand, wi, w, used)
    ensures h in Substitutions(wi, w, hand, used)
    decreases |wi| - w
  {
    if w == |wi| {
      assert h == hand;
    } else {
      var c := h[wi[w]];
      var k := 4 * c.rank + c.suit;
      SubCardAt(c.rank, c.suit);
      var hand' := hand[wi[w] := c];
      forall p | 0 <= p < |hand'| && p !in wi[w + 1..] ensures h[p] == hand'[p] {
        if p != wi[w] {
          assert p !in wi[w..];
        }
      }
      SubstitutionsComplete(wi, w + 1, hand', used + {c}, h);
      TriedHas(wi, w, hand, used, 52, k, h);
    }
  }

  /** Some card is not in a set of fewer than 52 cards. */
  lemma UnusedCardExists(used: set<Card>)
    requires |used| < 52
    ensures exists k :: 0 <= k < 52 && SubCard(k) !in used
  {
    var all := FirstSubCardSet(52);
    FirstSubCards(52);
    if all <= used {
      SubsetSize(all, used);
      assert false;
    }
    var c :| c in all && c !in used;
    var k :| 0 <= k < 52 && SubCard(k) == c;
  }

  lemma SubsetSize(a: set<Card>, b: set<Card>)
    requires a <= b
    ensures |a| <= |b|
  {
    assert b == a + (b - a);
  }

  ghost function FirstSubCardSet(n: nat): set<Card>
    requires n <= 52
  {
    set k | 0 <= k < n :: SubCard(k)
  }

  lemma {:induction false} FirstSubCards(n: nat)
    requires n <= 52
    ensures |FirstSubCardSet(n)| == n
  {
    if n > 0 {
      FirstSubCards(n - 1);
      assert FirstSubCardSet(n) == FirstSubCardSet(n - 1) + {SubCard(n - 1)};
      assert SubCard(n - 1) !in FirstSubCardSet(n - 1);
    }
  }

  /** While enough cards remain unused, the recursion appends at least one hand. */
  lemma {:induction false} SubstitutionsNonEmpty(wi: seq<nat>, w: nat, hand: seq<Card>, used: set<Card>)
    requires w <= |wi| && forall i :: 0 <= i < |wi| ==> wi[i] < |hand|
    requires |used| + (|wi| - w) <= 52
    ensures |Substitutions(wi, w, hand, used)| > 0
    decreases |wi| - w
  {
    if w < |wi| {
      UnusedCardExists(used);
      var k :| 0 <= k < 52 && SubCard(k) !in used;
      var c := SubCard(k);
      SubstitutionsNonEmpty(wi, w + 1, hand[wi[w] := c], used + {c});
      var h := Substitutions(wi, w + 1, hand[wi[w] := c], used + {c})[0];
      TriedHas(wi, w, hand, used, 52, k, h);
    }
  }

  /**
   * The recursive closure `generate_substitutions`, with `possible_hands`
   * threaded through as `acc`: it appends exactly `Substitutions`.
   */
  method GenerateSubstitutions(wi: seq<nat>, w: nat, hand: seq<Card>, used: set<Card>, acc: seq<seq<Card>>)
    returns (out: seq<seq<Card>>)
    requires w <= |wi|
    requires forall i :: 0 <= i < |wi| ==> wi[i] < |hand|
    ensures out == acc + Substitutions(wi, w, hand, used)
    decreases |wi| - w
  {
    if w >= |wi| {
      return acc + [hand];
    }
    out := acc;
    for rank := 0 to 13
      invariant out == acc + Tried(wi, w, hand, used, 4 * rank)
    {
      for suit := 0 to 4
        invariant out == acc + Tried(wi, w, hand, used, 4 * rank + suit)
      {
        var sub := Card(rank, suit);
        SubCardAt(rank, suit);
        if sub !in used {
          out := GenerateSubstitutions(wi, w + 1, hand[wi[w] := sub], used + {sub}, out);
        }
      }
    }
  }

  // ---------------------------------------------------------------------------
  // expand_wild_cards
  // ---------------------------------------------------------------------------

  /** `expand_wild_cards(cards, wild_ranks)` with the candidate cap as a parameter. */
  function Expansion(cards: seq<Card>, wild: set<Rank>, cap: nat): seq<seq<Card>>
  {
    var wi := WildPositions(cards, wild, |cards|);
    if wild == {} || wi == [] then [cards]
    else
      var all := Substitutions(wi, 0, cards, CardSet(NaturalCards(cards, wild, |cards|)));
      if |all| > cap then all[..cap] else all
  }

  /** `expand_wild_cards`: collect the wild positions and the natural cards, then run the substitution recursion. */
  method ExpandWildCards(cards: seq<Card>, wild: set<Rank>, cap: nat) returns (hands: seq<seq<Card>>)
    ensures hands == Expansion(cards, wild, cap)
  {
    if wild == {} {
      return [cards];
    }
    var wildIndices, naturals := SplitWilds(cards, wild);
    if wildIndices == [] {
      return [cards];
    }
    var used := HeldCards(naturals);
    hands := GenerateSubstitutions(wildIndices, 0, cards, used, []);
    assert hands == Substitutions(wildIndices, 0, cards, used);
    if |hands| > cap {
      hands := hands[..cap];
    }
  }

  /** The loop of `expand_wild_cards` that sorts positions into `wild_indices` and `non_wild_cards`. */
  method SplitWilds(cards: seq<Card>, wild: set<Rank>) returns (wildIndices: seq<nat>, naturals: seq<Card>)
    ensures wildIndices == WildPositions(cards, wild, |cards|)
    ensures naturals == NaturalCards(cards, wild, |cards|)
  {
    wildIndices, naturals := [], [];
    for i := 0 to |cards|
      invariant wildIndices == WildPositions(cards, wild, i)
      invariant naturals == NaturalCards(cards, wild, i)
    {
      if cards[i].rank in wild {
        wildIndices := wildIndices + [i];
      } else {
        naturals := naturals + [cards[i]];
      }
    }
  }

  /** The loop of `expand_wild_cards` that collects `used_cards`. */
  method HeldCards(naturals: seq<Card>) returns (used: set<Card>)
    ensures used == CardSet(naturals)
  {
    used := {};
    for i := 0 to |naturals|
      invariant used == CardSet(naturals[..i])
    {
      assert naturals[..i + 1] == naturals[..i] + [naturals[i]];
      assert CardSet(naturals[..i + 1]) == CardSet(naturals[..i]) + {naturals[i]};
      used := used + {naturals[i]};
    }
    assert naturals[..|naturals|] == naturals;
  }

  /** Without a wild rank, or without a wild card in the hand, the hand is its only expansion. */
  lemma ExpansionWithoutWilds(cards: seq<Card>, wild: set<Rank>, cap: nat)
    requires forall i :: 0 <= i < |cards| ==> cards[i].rank !in wild
    ensures Expansion(cards, wild, cap) == [cards]
  {
    NoWildPositions(cards, wild, |cards|);
  }

  lemma {:induction false} NoWildPositions(cards: seq<Card>, wild: set<Rank>, n: nat)
    requires n <= |cards|
    requires forall p :: 0 <= p < n ==> cards[p].rank !in wild
    ensures WildPositions(cards, wild, n) == []
  {
    if n > 0 {
      NoWildPositions(cards, wild, n - 1);
    }
  }

  /**
   * Every expansion keeps the natural cards in place and fills the wild
   * positions with cards that are pairwise distinct and differ from every
   * natural card; there are at most `cap` of them unless the hand is its own
   * only expansion.
   */
  lemma ExpansionShape(cards: seq<Card>, wild: set<Rank>, cap: nat, h: seq<Card>)
    requires h in Expansion(cards, wild, cap)
    ensures |h| == |cards|
    ensures forall p :: 0 <= p < |cards| && cards[p].rank !in wild ==> h[p] == cards[p]
    ensures forall p, q :: 0 <= p < |cards| && cards[p].rank in wild && 0 <= q < |cards| && cards[q].rank !in wild ==> h[p] != cards[q]
    ensures forall p, q :: 0 <= p < q < |cards| && cards[p].rank in wild && cards[q].rank in wild ==> h[p] != h[q]
    ensures |Expansion(cards, wild, cap)| <= cap || Expansion(cards, wild, cap) == [cards]
  {
    var wi := WildPositions(cards, wild, |cards|);
    WildPositionsFacts(cards, wild, |cards|);
    if wild != {} && wi != [] {
      var used := CardSet(NaturalCards(cards, wild, |cards|));
      assert h in Substitutions(wi, 0, cards, used);
      SubstitutionsSound(wi, 0, cards, used, h);
      FilledShape(cards, wild, used, h);
    }
  }

  /** A filling leaves a position that is not wild as it was. */
  lemma FillKeeps(h: seq<Card>, hand: seq<Card>, wi: seq<nat>, used: set<Card>, p: nat)
    requires ValidPositions(wi, hand) && Fills(h, hand, wi, 0, used)
    requires p < |hand| && p !in wi
    ensures h[p] == hand[p]
  {
    assert wi[0..] == wi;
  }

  /** A filling puts different cards in two wild positions. */
  lemma FillDistinct(h: seq<Card>, hand: seq<Card>, wi: seq<nat>, used: set<Card>, p: nat, q: nat)
    requires ValidPositions(wi, hand) && Fills(h, hand, wi, 0, used)
    requires p < q && p in wi && q in wi
    ensures h[p] != h[q]
  {
    var i :| 0 <= i < |wi| && wi[i] == p;
    var j :| 0 <= j < |wi| && wi[j] == q;
    assert i < j;
  }

  /** A filling puts no used card in a wild position. */
  lemma FillAvoids(h: seq<Card>, hand: seq<Card>, wi: seq<nat>, used: set<Card>, p: nat, c: Card)
    requires ValidPositions(wi, hand) && Fills(h, hand, wi, 0, used)
    requires p in wi && c in used
    ensures h[p] != c
  {
    var i :| 0 <= i < |wi| && wi[i] == p;
    assert h[wi[i]] !in used;
  }

  /** What `Fills` says about a whole hand, position by position. */
  lemma FilledShape(cards: seq<Card>, wild: set<Rank>, used: set<Card>, h: seq<Card>)
    requires ValidPositions(WildPositions(cards, wild, |cards|), cards)
    requires used == CardSet(NaturalCards(cards, wild, |cards|))
    requires Fills(h, cards, WildPositions(cards, wild, |cards|), 0, used)
    ensures forall p :: 0 <= p < |cards| && cards[p].rank !in wild ==> h[p] == cards[p]
    ensures forall p, q :: 0 <= p < |cards| && cards[p].rank in wild && 0 <= q < |cards| && cards[q].rank !in wild ==> h[p] != cards[q]
    ensures forall p, q :: 0 <= p < q < |cards| && cards[p].rank in wild && cards[q].rank in wild ==> h[p] != h[q]
  {
    var wi := WildPositions(cards, wild, |cards|);
    WildPositionsFacts(cards, wild, |cards|);
    NaturalCardsFacts(cards, wild, |cards|);
    forall p | 0 <= p < |cards| && cards[p].rank !in wild ensures h[p] == cards[p] {
      FillKeeps(h, cards, wi, used, p);
    }
    forall p, q | 0 <= p < q < |cards| && cards[p].rank in wild && cards[q].rank in wild ensures h[p] != h[q] {
      FillDistinct(h, cards, wi, used, p, q);
    }
    forall p, q | 0 <= p < |cards| && cards[p].rank in wild && 0 <= q < |cards| && cards[q].rank !in wild
      ensures h[p] != cards[q]
    {
      assert cards[q] in used;
      FillAvoids(h, cards, wi, used, p, cards[q]);
    }
  }

  /** Below the cap nothing is lost: every hand that fills the wild positions that way is an expansion. */
  lemma ExpansionComplete(cards: seq<Card>, wild: set<Rank>, cap: nat, h: seq<Card>)
    requires wild != {}
    requires |h| == |cards|
    requires forall p :: 0 <= p < |cards| && cards[p].rank !in wild ==> h[p] == cards[p]
    requires forall p :: 0 <= p < |cards| && cards[p].rank in wild ==> h[p] !in NaturalCards(cards, wild, |cards|)
    requires forall p, q :: 0 <= p < q < |cards| && cards[p].rank in wild && cards[q].rank in wild ==> h[p] != h[q]
    requires |Substitutions(WildPositions(cards, wild, |cards|), 0, cards, CardSet(NaturalCards(cards, wild, |cards|)))| <= cap
    ensures h in Expansion(cards, wild, cap)
  {
    var wi := WildPositions(cards, wild, |cards|);
    WildPositionsFacts(cards, wild, |cards|);
    NaturalCardsFacts(cards, wild, |cards|);
    if wi == [] {
      assert h == cards;
    } else {
      var used := CardSet(NaturalCards(cards, wild, |cards|));
      assert wi[0..] == wi;
      forall i | 0 <= i < |wi| ensures h[wi[i]] !in used {
        assert wi[i] in wi;
      }
      forall i, j | 0 <= i < j < |wi| ensures h[wi[i]] != h[wi[j]] {
        assert wi[i] in wi && wi[j] in wi;
      }
      SubstitutionsComplete(wi, 0, cards, used, h);
    }
  }

  /** A hand of at most 52 cards always has an expansion when the cap allows one. */
  lemma ExpansionNonEmpty(cards: seq<Card>, wild: set<Rank>, cap: nat)
    requires cap >= 1 && |cards| <= 52
    ensures |Expansion(cards, wild, cap)| > 0
  {
    var wi := WildPositions(cards, wild, |cards|);
    WildPositionsFacts(cards, wild, |cards|);
    NaturalCardsFacts(cards, wild, |cards|);
    if wild != {} && wi != [] {
      var naturals := NaturalCards(cards, wild, |cards|);
      CardSetSize(naturals);
      SubstitutionsNonEmpty(wi, 0, cards, CardSet(naturals));
    }
  }

  /** When the natural cards are pairwise distinct, so is every expanded hand. */
  lemma ExpansionDistinct(cards: seq<Card>, wild: set<Rank>, cap: nat, h: seq<Card>)
    requires h in Expansion(cards, wild, cap)
    requires forall p, q :: 0 <= p < q < |cards| && cards[p].rank !in wild && cards[q].rank !in wild ==> cards[p] != cards[q]
    ensures Distinct(h)
  {
    ExpansionShape(cards, wild, cap, h);
    forall p, q | 0 <= p < q < |h| ensures h[p] != h[q] {
      if cards[p].rank in wild && cards[q].rank !in wild {
        assert h[p] != cards[q];
      } else if cards[p].rank !in wild && cards[q].rank in wild {
        assert h[q] != cards[p];
      }
    }
  }

  // ---------------------------------------------------------------------------
  // The scarcity pre-check of best_hand_with_wilds
  // ---------------------------------------------------------------------------

  /**
   * `rank_counts.most_common(1)[0]` over the first `n` natural cards: the
   * position of the first card whose rank is counted most often (later
   * ranks win only with a strictly higher count).
   */
  function MostCommonAt(naturals: seq<Card>, n: nat): (m: nat)
    requires 0 < n <= |naturals|
    ensures m < n
    ensures forall j :: 0 <= j < n ==> RankCount(naturals, naturals[j].rank) <= RankCount(naturals, naturals[m].rank)
    ensures forall j :: 0 <= j < m ==> RankCount(naturals, naturals[j].rank) < RankCount(naturals, naturals[m].rank)
  {
    if n == 1 then 0
    else
      var m := MostCommonAt(naturals, n - 1);
      if RankCount(naturals, naturals[n - 1].rank) > RankCount(naturals, naturals[m].rank) then n - 1 else m
  }

  /**
   * The pre-check: a combination holding a wild card and a natural card is
   * Five of a Kind of its most common natural rank when that rank's count
   * plus the number of wild cards reaches five.
   */
  function PreCheck(combo: seq<Card>, wild: set<Rank>): Option<Rank>
  {
    var naturals := NaturalCards(combo, wild, |combo|);
    var wildCount := |WildPositions(combo, wild, |combo|)|;
    if wildCount > 0 && naturals != [] then
      var r := naturals[MostCommonAt(naturals, |naturals|)].rank;
      if RankCount(naturals, r) + wildCount >= 5 then Some(r) else None
    else None
  }

  /** A count equals the length exactly when every card has that rank. */
  lemma {:induction false} RankCountFull(cards: seq<Card>, v: Rank)
    ensures RankCount(cards, v) <= |cards|
    ensures RankCount(cards, v) == |cards| <==> forall i :: 0 <= i < |cards| ==> cards[i].rank == v
  {
    if cards != [] {
      RankCountFull(cards[1..], v);
      if forall i :: 0 <= i < |cards| ==> cards[i].rank == v {
        assert forall i :: 0 <= i < |cards[1..]| ==> cards[1..][i] == cards[i + 1];
      }
      if RankCount(cards, v) == |cards| {
        forall i | 0 <= i < |cards| ensures cards[i].rank == v {
          if i > 0 { assert cards[1..][i - 1] == cards[i]; }
        }
      }
    }
  }

  /**
   * On five cards the pre-check fires exactly when the hand holds a wild
   * card and a natural card and all natural cards share one rank, which is
   * the rank it reports.
   */
  lemma PreCheckIffOneNaturalRank(combo: seq<Card>, wild: set<Rank>, r: Rank)
    requires |combo| == 5
    ensures PreCheck(combo, wild) == Some(r) <==>
      && (exists p :: 0 <= p < 5 && combo[p].rank in wild)
      && (exists p :: 0 <= p < 5 && combo[p].rank !in wild)
      && (forall p :: 0 <= p < 5 && combo[p].rank !in wild ==> combo[p].rank == r)
  {
    var naturals := NaturalCards(combo, wild, 5);
    var wi := WildPositions(combo, wild, 5);
    assert (wi != []) == (exists p :: 0 <= p < 5 && combo[p].rank in wild) by {
      WildPositionsFacts(combo, wild, 5);
      if wi != [] {
        assert wi[0] in wi;
      }
    }
    assert |naturals| + |wi| == 5 by {
      NaturalCardsFacts(combo, wild, 5);
    }
    NaturalsShareRank(combo, wild, r);
    if naturals != [] {
      var r' := naturals[MostCommonAt(naturals, |naturals|)].rank;
      RankCountFull(naturals, r');
      RankCountFull(naturals, r);
      if forall i :: 0 <= i < |naturals| ==> naturals[i].rank == r {
        assert r' == r;
      }
    }
  }

  /**
   * Some card is natural exactly when the natural cards are not empty, and
   * the natural cards of the hand all have rank `r` exactly when those of
   * the list do.
   */
  lemma NaturalsShareRank(combo: seq<Card>, wild: set<Rank>, r: Rank)
    requires |combo| == 5
    ensures
      var naturals := NaturalCards(combo, wild, 5);
      && ((naturals != []) == (exists p :: 0 <= p < 5 && combo[p].rank !in wild))
      && ((forall i :: 0 <= i < |naturals| ==> naturals[i].rank == r) <==>
          (forall p :: 0 <= p < 5 && combo[p].rank !in wild ==> combo[p].rank == r))
  {
    var naturals := NaturalCards(combo, wild, 5);
    NaturalCardsFacts(combo, wild, 5);
    NaturalCardsAreCards(combo, wild, 5);
    if naturals != [] {
      assert naturals[0] in naturals;
    }
  }

  /** The natural cards are cards of the hand. */
  lemma {:induction false} NaturalCardsAreCards(cards: seq<Card>, wild: set<Rank>, n: nat)
    requires n <= |cards|
    ensures forall i :: 0 <= i < |NaturalCards(cards, wild, n)| ==>
      exists p :: 0 <= p < n && cards[p] == NaturalCards(cards, wild, n)[i]
  {
    if n > 0 {
      NaturalCardsAreCards(cards, wild, n - 1);
      var rest := NaturalCards(cards, wild, n - 1);
      var all := NaturalCards(cards, wild, n);
      forall i | 0 <= i < |all| ensures exists p :: 0 <= p < n && cards[p] == all[i] {
        if i < |rest| {
          assert all[i] == rest[i];
          var p :| 0 <= p < n - 1 && cards[p] == rest[i];
        } else {
          assert all[i] == cards[n - 1];
        }
      }
    } else {
      assert NaturalCards(cards, wild, n) == [];
    }
  }

  // ---------------------------------------------------------------------------
  // best_hand_with_wilds
  // ---------------------------------------------------------------------------

  /** The pair `(best_hand, best_combo)`; the value is `None` until the first result. */
  datatype Best = Best(value: Option<HandValue>, combo: seq<Card>)

  /** An expanded hand's value replaces the best so far when there is none or `compare_hands` prefers it. */
  function ConsiderExpanded(s: Best, v: HandValue, combo: seq<Card>): Best
  {
    if s.value.None? || CompareHands(v, s.value.value) > 0 then Best(Some(v), combo) else s
  }

  /** The pre-check's Five of a Kind replaces the best so far when there is none or the tuple comparison prefers it. */
  function ConsiderPreCheck(s: Best, v: HandValue, combo: seq<Card>): Best
  {
    if s.value.None? || Beats(v, s.value.value) then Best(Some(v), combo) else s
  }

  /**
   * The loop over the expanded hands of one combination. With `stopEarly`
   * (the source as written) it stops as soon as the best so far is Five of
   * a Kind, and says so.
   */
  function ScanHands(score: seq<Card> -> HandValue, s: Best, hands: seq<seq<Card>>, combo: seq<Card>, stopEarly: bool): (Best, bool)
    decreases |hands|
  {
    if hands == [] then (s, false)
    else
      var s' := ConsiderExpanded(s, score(hands[0]), combo);
      if stopEarly && s'.value.value.category == FiveOfAKind then (s', true)
      else ScanHands(score, s', hands[1..], combo, stopEarly)
  }

  /** The loop over the five-card combinations, from the best-so-far pair `s`. */
  function ScanCombos(score: seq<Card> -> HandValue, s: Best, pool: seq<Card>, cs: seq<seq<nat>>,
                      wild: set<Rank>, cap: nat, stopEarly: bool): Best
    requires forall j, i :: 0 <= j < |cs| && 0 <= i < |cs[j]| ==> cs[j][i] < |pool|
    decreases |cs|
  {
    if cs == [] then s
    else
      var combo := Select(pool, cs[0]);
      match PreCheck(combo, wild)
      case Some(r) => ScanCombos(score, ConsiderPreCheck(s, HandValue(FiveOfAKind, [r]), combo), pool, cs[1..], wild, cap, stopEarly)
      case None =>
        var scanned := ScanHands(score, s, Expansion(combo, wild, cap), combo, stopEarly);
        if scanned.1 then scanned.0
        else ScanCombos(score, scanned.0, pool, cs[1..], wild, cap, stopEarly)
  }

  /**
   * The body of `best_hand_with_wilds` once some rank is wild; `stopEarly`
   * keeps or drops the early return on Five of a Kind.
   */
  method SearchWilds(score: seq<Card> -> HandValue, pool: seq<Card>, cs: seq<seq<nat>>,
                     wild: set<Rank>, cap: nat, stopEarly: bool) returns (result: Best)
    requires forall j, i :: 0 <= j < |cs| && 0 <= i < |cs[j]| ==> cs[j][i] < |pool|
    ensures result == ScanCombos(score, Best(None, []), pool, cs, wild, cap, stopEarly)
  {
    result := Best(None, []);
    for i := 0 to |cs|
      invariant ScanCombos(score, result, pool, cs[i..], wild, cap, stopEarly)
        == ScanCombos(score, Best(None, []), pool, cs, wild, cap, stopEarly)
    {
      assert cs[i..][0] == cs[i] && cs[i..][1..] == cs[i + 1..];
      var combo := Select(pool, cs[i]);
      var pre := PreCheck(combo, wild);
      if pre.Some? {
        result := ConsiderPreCheck(result, HandValue(FiveOfAKind, [pre.value]), combo);
      } else {
        var hands := ExpandWildCards(combo, wild, cap);
        ghost var start := result;
        for j := 0 to |hands|
          invariant ScanHands(score, result, hands[j..], combo, stopEarly) == ScanHands(score, start, hands, combo, stopEarly)
        {
          assert hands[j..][0] == hands[j] && hands[j..][1..] == hands[j + 1..];
          result := ConsiderExpanded(result, score(hands[j]), combo);
          if stopEarly && result.value.value.category == FiveOfAKind {
            return;
          }
        }
      }
    }
  }

  // ---------------------------------------------------------------------------
  // What the search finds
  // ---------------------------------------------------------------------------

  /** `v` is a value the combination contributes: the pre-check's Five of a Kind, or an expanded hand's score. */
  ghost predicate IsCandidate(score: seq<Card> -> HandValue, v: HandValue, combo: seq<Card>, wild: set<Rank>, cap: nat)
  {
    match PreCheck(combo, wild)
    case Some(r) => v == HandValue(FiveOfAKind, [r])
    case None => exists h :: h in Expansion(combo, wild, cap) && v == score(h)
  }

  /** No value the combination contributes beats `best`. */
  ghost predicate Dominates(score: seq<Card> -> HandValue, best: HandValue, combo: seq<Card>, wild: set<Rank>, cap: nat)
  {
    match PreCheck(combo, wild)
    case Some(r) => !Beats(HandValue(FiveOfAKind, [r]), best)
    case None => forall h :: h in Expansion(combo, wild, cap) ==> !Beats(score(h), best)
  }

  /** Scanning a non-empty list of hands, or from an existing best, leaves a best. */
  lemma {:induction false} ScanHandsSome(score: seq<Card> -> HandValue, s: Best, hands: seq<seq<Card>>, combo: seq<Card>, stopEarly: bool)
    ensures hands != [] || s.value.Some? ==> ScanHands(score, s, hands, combo, stopEarly).0.value.Some?
    decreases |hands|
  {
    if hands != [] {
      ScanHandsSome(score, ConsiderExpanded(s, score(hands[0]), combo), hands[1..], combo, stopEarly);
    }
  }

  /** With the cap at least one, the search over a non-empty list of five-card combinations ends with a best. */
  lemma {:induction false} ScanCombosSome(score: seq<Card> -> HandValue, s: Best, pool: seq<Card>, cs: seq<seq<nat>>,
                                          wild: set<Rank>, cap: nat, stopEarly: bool)
    requires forall j, i :: 0 <= j < |cs| && 0 <= i < |cs[j]| ==> cs[j][i] < |pool|
    requires forall j :: 0 <= j < |cs| ==> |cs[j]| == 5
    requires cap >= 1
    ensures cs != [] || s.value.Some? ==> ScanCombos(score, s, pool, cs, wild, cap, stopEarly).value.Some?
    decreases |cs|
  {
    if cs != [] {
      var combo := Select(pool, cs[0]);
      match PreCheck(combo, wild)
      case Some(r) =>
        ScanCombosSome(score, ConsiderPreCheck(s, HandValue(FiveOfAKind, [r]), combo), pool, cs[1..], wild, cap, stopEarly);
      case None =>
        ExpansionNonEmpty(combo, wild, cap);
        ScanHandsSome(score, s, Expansion(combo, wild, cap), combo, stopEarly);
        ScanCombosSome(score, ScanHands(score, s, Expansion(combo, wild, cap), combo, stopEarly).0, pool, cs[1..], wild, cap, stopEarly);
    }
  }

  /**
   * Without the early return, scanning hands never stops, and the best after
   * the scan is beaten neither by the best before it nor by any hand scanned.
   */
  lemma {:induction false} ScanHandsMax(score: seq<Card> -> HandValue, s: Best, hands: seq<seq<Card>>, combo: seq<Card>)
    requires forall i :: 0 <= i < |hands| ==> WellFormed(score(hands[i]))
    requires s.value.Some? ==> WellFormed(s.value.value)
    ensures !ScanHands(score, s, hands, combo, false).1
    ensures var r := ScanHands(score, s, hands, combo, false).0;
      && (hands != [] || s.value.Some? ==> r.value.Some?)
      && (r.value.Some? ==> WellFormed(r.value.value))
      && (s.value.Some? ==> !Beats(s.value.value, r.value.value))
      && (forall i :: 0 <= i < |hands| ==> !Beats(score(hands[i]), r.value.value))
      && (r == s || (r.combo == combo && exists i :: 0 <= i < |hands| && r.value == Some(score(hands[i]))))
    decreases |hands|
  {
    if hands == [] {
      if s.value.Some? {
        BeatsIsStrictTotalOrder(s.value.value, s.value.value, s.value.value);
      }
    } else {
      var v := score(hands[0]);
      var s1 := ConsiderExpanded(s, v, combo);
      BeatsIsStrictTotalOrder(v, v, v);
      if s.value.Some? {
        BeatsIffCompareHandsWins(v, s.value.value);
        BeatsIsStrictTotalOrder(v, s.value.value, v);
        BeatsIsStrictTotalOrder(s.value.value, s.value.value, s.value.value);
      }
      assert !Beats(v, s1.value.value);
      assert s.value.Some? ==> !Beats(s.value.value, s1.value.value);
      ScanHandsMax(score, s1, hands[1..], combo);
      var r := ScanHands(score, s1, hands[1..], combo, false).0;
      NotBeatenTransitive(v, s1.value.value, r.value.value);
      if s.value.Some? {
        NotBeatenTransitive(s.value.value, s1.value.value, r.value.value);
      }
      forall i | 1 <= i < |hands| ensures !Beats(score(hands[i]), r.value.value) {
        assert hands[1..][i - 1] == hands[i];
      }
      if r != s1 {
        var i :| 0 <= i < |hands[1..]| && r.value == Some(score(hands[1..][i]));
        assert hands[1..][i] == hands[i + 1];
      }
    }
  }

  /**
   * Without the early return the search is a maximum: no combination
   * contributes a value that beats the result, and unless nothing changed
   * the result is a value contributed by the combination it reports.
   */
  lemma {:induction false} ScanCombosMax(score: seq<Card> -> HandValue, s: Best, pool: seq<Card>, cs: seq<seq<nat>>,
                                         wild: set<Rank>, cap: nat)
    requires forall j, i :: 0 <= j < |cs| && 0 <= i < |cs[j]| ==> cs[j][i] < |pool|
    requires forall j :: 0 <= j < |cs| ==> |cs[j]| == 5
    requires forall h: seq<Card> :: |h| == 5 ==> WellFormed(score(h))
    requires s.value.Some? ==> WellFormed(s.value.value)
    requires cap >= 1
    ensures var r := ScanCombos(score, s, pool, cs, wild, cap, false);
      && (cs != [] || s.value.Some? ==> r.value.Some?)
      && (r.value.Some? ==> WellFormed(r.value.value))
      && (s.value.Some? ==> !Beats(s.value.value, r.value.value))
      && (forall j :: 0 <= j < |cs| ==> Dominates(score, r.value.value, Select(pool, cs[j]), wild, cap))
      && (r == s || exists j :: 0 <= j < |cs| && r.combo == Select(pool, cs[j]) && r.value.Some?
                                && IsCandidate(score, r.value.value, r.combo, wild, cap))
    decreases |cs|
  {
    if cs == [] {
      if s.value.Some? {
        BeatsIsStrictTotalOrder(s.value.value, s.value.value, s.value.value);
      }
    } else {
      var combo := Select(pool, cs[0]);
      match PreCheck(combo, wild)
      case Some(rk) =>
        PreCheckStep(score, s, pool, cs, wild, cap, rk);
      case None =>
        ExpandedStep(score, s, pool, cs, wild, cap);
    }
  }

  lemma {:induction false} PreCheckStep(score: seq<Card> -> HandValue, s: Best, pool: seq<Card>, cs: seq<seq<nat>>,
                                        wild: set<Rank>, cap: nat, rk: Rank)
    requires forall j, i :: 0 <= j < |cs| && 0 <= i < |cs[j]| ==> cs[j][i] < |pool|
    requires forall j :: 0 <= j < |cs| ==> |cs[j]| == 5
    requires forall h: seq<Card> :: |h| == 5 ==> WellFormed(score(h))
    requires s.value.Some? ==> WellFormed(s.value.value)
    requires cap >= 1
    requires cs != [] && PreCheck(Select(pool, cs[0]), wild) == Some(rk)
    ensures var r := ScanCombos(score, s, pool, cs, wild, cap, false);
      && r.value.Some?
      && WellFormed(r.value.value)
      && (s.value.Some? ==> !Beats(s.value.value, r.value.value))
      && (forall j :: 0 <= j < |cs| ==> Dominates(score, r.value.value, Select(pool, cs[j]), wild, cap))
      && (r == s || exists j :: 0 <= j < |cs| && r.combo == Select(pool, cs[j]) && r.value.Some?
                                && IsCandidate(score, r.value.value, r.combo, wild, cap))
    decreases |cs|, 0
  {
    var combo := Select(pool, cs[0]);
    var v := HandValue(FiveOfAKind, [rk]);
    var s1 := ConsiderPreCheck(s, v, combo);
    BeatsIsStrictTotalOrder(v, v, v);
    if s.value.Some? {
      BeatsIsStrictTotalOrder(v, s.value.value, v);
      BeatsIsStrictTotalOrder(s.value.value, s.value.value, s.value.value);
    }
    ScanCombosMax(score, s1, pool, cs[1..], wild, cap);
    var r := ScanCombos(score, s1, pool, cs[1..], wild, cap, false);
    assert r == ScanCombos(score, s, pool, cs, wild, cap, false);
    NotBeatenTransitive(v, s1.value.value, r.value.value);
    if s.value.Some? {
      NotBeatenTransitive(s.value.value, s1.value.value, r.value.value);
    }
    forall j | 1 <= j < |cs| ensures Dominates(score, r.value.value, Select(pool, cs[j]), wild, cap) {
      assert cs[1..][j - 1] == cs[j];
    }
    if r != s1 {
      var j :| 0 <= j < |cs[1..]| && r.combo == Select(pool, cs[1..][j]) && IsCandidate(score, r.value.value, r.combo, wild, cap);
      assert cs[1..][j] == cs[j + 1];
    }
  }

  lemma {:induction false} ExpandedStep(score: seq<Card> -> HandValue, s: Best, pool: seq<Card>, cs: seq<seq<nat>>,
                                        wild: set<Rank>, cap: nat)
    requires forall j, i :: 0 <= j < |cs| && 0 <= i < |cs[j]| ==> cs[j][i] < |pool|
    requires forall j :: 0 <= j < |cs| ==> |cs[j]| == 5
    requires forall h: seq<Card> :: |h| == 5 ==> WellFormed(score(h))
    requires s.value.Some? ==> WellFormed(s.value.value)
    requires cap >= 1
    requires cs != [] && PreCheck(Select(pool, cs[0]), wild).None?
    ensures var r := ScanCombos(score, s, pool, cs, wild, cap, false);
      && r.value.Some?
      && WellFormed(r.value.value)
      && (s.value.Some? ==> !Beats(s.value.value, r.value.value))
      && (forall j :: 0 <= j < |cs| ==> Dominates(score, r.value.value, Select(pool, cs[j]), wild, cap))
      && (r == s || exists j :: 0 <= j < |cs| && r.combo == Select(pool, cs[j]) && r.value.Some?
                                && IsCandidate(score, r.value.value, r.combo, wild, cap))
    decreases |cs|, 0
  {
    var combo := Select(pool, cs[0]);
    var hands := Expansion(combo, wild, cap);
    forall i | 0 <= i < |hands| ensures WellFormed(score(hands[i])) {
      ExpansionShape(combo, wild, cap, hands[i]);
    }
    ExpansionNonEmpty(combo, wild, cap);
    ScanHandsMax(score, s, hands, combo);
    var s1 := ScanHands(score, s, hands, combo, false).0;
    ScanCombosMax(score, s1, pool, cs[1..], wild, cap);
    var r := ScanCombos(score, s1, pool, cs[1..], wild, cap, false);
    assert r == ScanCombos(score, s, pool, cs, wild, cap, false);
    ExpandedJoin(score, s, s1, r, pool, cs, wild, cap, hands);
  }

  /**
   * The expanded combination's hands raise the best from `s` to `s1`, and the
   * remaining combinations raise it from `s1` to `r`: `r` then bounds them all.
   */
  lemma ExpandedJoin(score: seq<Card> -> HandValue, s: Best, s1: Best, r: Best, pool: seq<Card>, cs: seq<seq<nat>>,
                     wild: set<Rank>, cap: nat, hands: seq<seq<Card>>)
    requires forall j, i :: 0 <= j < |cs| && 0 <= i < |cs[j]| ==> cs[j][i] < |pool|
    requires cs != [] && PreCheck(Select(pool, cs[0]), wild).None?
    requires hands == Expansion(Select(pool, cs[0]), wild, cap)
    requires s1.value.Some? && WellFormed(s1.value.value)
    requires s.value.Some? ==> !Beats(s.value.value, s1.value.value)
    requires forall i :: 0 <= i < |hands| ==> !Beats(score(hands[i]), s1.value.value)
    requires s1 == s || (s1.combo == Select(pool, cs[0]) && exists i :: 0 <= i < |hands| && s1.value == Some(score(hands[i])))
    requires r.value.Some? && WellFormed(r.value.value)
    requires !Beats(s1.value.value, r.value.value)
    requires forall j :: 0 <= j < |cs[1..]| ==> Dominates(score, r.value.value, Select(pool, cs[1..][j]), wild, cap)
    requires r == s1 || exists j :: 0 <= j < |cs[1..]| && r.combo == Select(pool, cs[1..][j]) && r.value.Some?
                                     && IsCandidate(score, r.value.value, r.combo, wild, cap)
    ensures s.value.Some? ==> !Beats(s.value.value, r.value.value)
    ensures forall j :: 0 <= j < |cs| ==> Dominates(score, r.value.value, Select(pool, cs[j]), wild, cap)
    ensures r == s || exists j :: 0 <= j < |cs| && r.combo == Select(pool, cs[j]) && r.value.Some?
                                 && IsCandidate(score, r.value.value, r.combo, wild, cap)
  {
    var combo := Select(pool, cs[0]);
    if s.value.Some? {
      NotBeatenTransitive(s.value.value, s1.value.value, r.value.value);
    }
    forall h | h in hands ensures !Beats(score(h), r.value.value) {
      var i :| 0 <= i < |hands| && hands[i] == h;
      NotBeatenTransitive(score(h), s1.value.value, r.value.value);
    }
    assert Dominates(score, r.value.value, combo, wild, cap);
    forall j | 1 <= j < |cs| ensures Dominates(score, r.value.value, Select(pool, cs[j]), wild, cap) {
      assert cs[1..][j - 1] == cs[j];
    }
    if r != s1 {
      var j :| 0 <= j < |cs[1..]| && r.combo == Select(pool, cs[1..][j]) && IsCandidate(score, r.value.value, r.combo, wild, cap);
      assert cs[1..][j] == cs[j + 1];
    } else if s1 != s {
      var i :| 0 <= i < |hands| && s1.value == Some(score(hands[i]));
      assert hands[i] in hands;
    }
  }

  /** With no wild rank nothing is pre-checked and every combination is its own only expansion. */
  lemma WithoutWildRanks(combo: seq<Card>, cap: nat)
    ensures PreCheck(combo, {}) == None
    ensures Expansion(combo, {}, cap) == [combo]
  {
    NoWildPositions(combo, {}, |combo|);
  }

  /**
   * `best_hand_with_wilds` with the early return left out. With no wild
   * rank it is `best_hand([], all_cards)`. Otherwise no five-card
   * combination contributes a value (its pre-check Five of a Kind, or the
   * value of one of its expansions) that beats the result, and the result
   * is a value contributed by the combination returned.
   */
  method BestHandWithWilds(pool: seq<Card>, wild: set<Rank>, cap: nat) returns (best: HandValue, bestCards: seq<Card>)
    requires |pool| >= 5 && cap >= 1
    ensures WellFormed(best)
    ensures exists c :: IsCombo(c, 5, 0, |pool|) && bestCards == Select(pool, c) && IsCandidate(EvaluateFive, best, bestCards, wild, cap)
    ensures forall c :: IsCombo(c, 5, 0, |pool|) ==> Dominates(EvaluateFive, best, Select(pool, c), wild, cap)
  {
    if wild == {} {
      assert [] + pool == pool;
      best, bestCards := BestHand([], pool);
      WithoutWildRanks(bestCards, cap);
      forall c | IsCombo(c, 5, 0, |pool|) ensures Dominates(EvaluateFive, best, Select(pool, c), wild, cap) {
        WithoutWildRanks(Select(pool, c), cap);
      }
      return;
    }
    var cs := FiveCardChoices(|pool|);
    var r := SearchWilds(EvaluateFive, pool, cs, wild, cap, false);
    CombosNonEmpty(5, 0, |pool|);
    forall h: seq<Card> | |h| == 5 ensures WellFormed(EvaluateFive(h)) {
      EvaluateFiveWellFormed(h);
    }
    ScanCombosMax(EvaluateFive, Best(None, []), pool, cs, wild, cap);
    best, bestCards := r.value.value, r.combo;
    forall c | IsCombo(c, 5, 0, |pool|) ensures Dominates(EvaluateFive, best, Select(pool, c), wild, cap) {
      CombosAreExactlyTheSubsets(5, 0, |pool|, c);
      var j :| 0 <= j < |cs| && cs[j] == c;
    }
    ghost var j :| 0 <= j < |cs| && r.combo == Select(pool, cs[j]) && IsCandidate(EvaluateFive, best, bestCards, wild, cap);
    assert IsCombo(cs[j], 5, 0, |pool|);
  }

  /**
   * `best_hand_with_wilds` as written: with no wild rank it is `best_hand`;
   * otherwise it is the search that returns as soon as the best so far is
   * Five of a Kind after an expanded hand has been scored.
   */
  method BestHandWithWildsAsWritten(pool: seq<Card>, wild: set<Rank>, cap: nat) returns (best: HandValue, bestCards: seq<Card>)
    requires |pool| >= 5 && cap >= 1
    ensures wild == {} ==> forall c :: IsCombo(c, 5, 0, |pool|) ==> !Beats(ComboValue(pool, c), best)
    ensures wild != {} ==> Best(Some(best), bestCards) == ScanCombos(EvaluateFive, Best(None, []), pool, FiveCardChoices(|pool|), wild, cap, true)
  {
    if wild == {} {
      assert [] + pool == pool;
      best, bestCards := BestHand([], pool);
      return;
    }
    var cs := FiveCardChoices(|pool|);
    var r := SearchWilds(EvaluateFive, pool, cs, wild, cap, true);
    CombosNonEmpty(5, 0, |pool|);
    ScanCombosSome(EvaluateFive, Best(None, []), pool, cs, wild, cap, true);
    best, bestCards := r.value.value, r.combo;
  }

  // ---------------------------------------------------------------------------
  // The early return
  // ---------------------------------------------------------------------------

  /** Q♥ Q♠ 7♣ 5♠ 5♥ A♠ A♥, with queens and sevens wild. */
  function EarlyReturnPool(): seq<Card>
  {
    [Card(Queen, Hearts), Card(Queen, Spades), Card(Seven, Clubs), Card(Five, Spades),
     Card(Five, Hearts), Card(Ace, Spades), Card(Ace, Hearts)]
  }

  /**
   * As written, on any pool that starts with those seven cards, the search
   * returns five fives: the first combination
   * (Q♥ Q♠ 7♣ 5♠ 5♥) is Five of a Kind by the pre-check, and the first hand
   * expanded from the second one (Q♥ Q♠ 7♣ 5♠ A♠) triggers the early
   * return. Yet Q♥ Q♠ 7♣ A♠ A♥ is five aces, which beats it.
   */
  lemma EarlyReturnMissesFiveAces(pool: seq<Card>, wild: set<Rank>, cap: nat)
    requires |pool| >= 7 && pool[..7] == EarlyReturnPool() && wild == {Queen, Seven} && cap >= 1
    ensures ScanCombos(EvaluateFive, Best(None, []), pool, FiveCardChoices(|pool|), wild, cap, true).value
      == Some(HandValue(FiveOfAKind, [Five]))
    ensures IsCandidate(EvaluateFive, HandValue(FiveOfAKind, [Ace]), Select(pool, [0, 1, 2, 5, 6]), wild, cap)
    ensures Beats(HandValue(FiveOfAKind, [Ace]), HandValue(FiveOfAKind, [Five]))
  {
    var cs := FiveCardChoices(|pool|);
    FirstTwoCombos(pool);
    var first := Select(pool, cs[0]);
    FirstComboIsFiveFives(first, wild);
    var s1 := Best(Some(HandValue(FiveOfAKind, [Five])), first);
    assert ScanCombos(EvaluateFive, Best(None, []), pool, cs, wild, cap, true)
      == ScanCombos(EvaluateFive, s1, pool, cs[1..], wild, cap, true);
    var second := Select(pool, cs[1]);
    SecondComboReturns(s1, second, wild, cap);
    assert cs[1..][0] == cs[1];
    FiveAcesAvailable(pool, wild, cap);
  }

  /** Without the early return the same search finds the five aces. */
  lemma CorrectedSearchFindsFiveAces(pool: seq<Card>, wild: set<Rank>, cap: nat)
    requires |pool| >= 7 && pool[..7] == EarlyReturnPool() && wild == {Queen, Seven} && cap >= 1
    ensures ScanCombos(EvaluateFive, Best(None, []), pool, FiveCardChoices(|pool|), wild, cap, false).value
      == Some(HandValue(FiveOfAKind, [Ace]))
  {
    var c := [0, 1, 2, 5, 6];
    FullSearchDominates(pool, wild, cap, c);
    FiveAcesAvailable(pool, wild, cap);
    FiveAcesIsTop(ScanCombos(EvaluateFive, Best(None, []), pool, FiveCardChoices(|pool|), wild, cap, false).value.value);
  }

  /** The search without the early return yields a well-formed value that every combination's contribution leaves unbeaten. */
  lemma FullSearchDominates(pool: seq<Card>, wild: set<Rank>, cap: nat, c: seq<nat>)
    requires |pool| >= 5 && cap >= 1 && IsCombo(c, 5, 0, |pool|)
    ensures var r := ScanCombos(EvaluateFive, Best(None, []), pool, FiveCardChoices(|pool|), wild, cap, false);
      && r.value.Some? && WellFormed(r.value.value)
      && Dominates(EvaluateFive, r.value.value, Select(pool, c), wild, cap)
  {
    var cs := FiveCardChoices(|pool|);
    forall h: seq<Card> | |h| == 5 ensures WellFormed(EvaluateFive(h)) {
      EvaluateFiveWellFormed(h);
    }
    CombosNonEmpty(5, 0, |pool|);
    ScanCombosMax(EvaluateFive, Best(None, []), pool, cs, wild, cap);
    CombosAreExactlyTheSubsets(5, 0, |pool|, c);
  }

  /** Five aces is the top of the order: a well-formed value it does not beat is five aces. */
  lemma FiveAcesIsTop(best: HandValue)
    requires WellFormed(best) && !Beats(HandValue(FiveOfAKind, [Ace]), best)
    ensures best == HandValue(FiveOfAKind, [Ace])
  {
    assert best.category == FiveOfAKind && |best.tiebreakers| == 1;
    assert best.tiebreakers == [best.tiebreakers[0]];
  }

  /** The first two combinations of such a pool. */
  lemma FirstTwoCombos(pool: seq<Card>)
    requires |pool| >= 7 && pool[..7] == EarlyReturnPool()
    ensures |FiveCardChoices(|pool|)| >= 2
    ensures Select(pool, FiveCardChoices(|pool|)[0])
      == [Card(Queen, Hearts), Card(Queen, Spades), Card(Seven, Clubs), Card(Five, Spades), Card(Five, Hearts)]
    ensures Select(pool, FiveCardChoices(|pool|)[1])
      == [Card(Queen, Hearts), Card(Queen, Spades), Card(Seven, Clubs), Card(Five, Spades), Card(Ace, Spades)]
  {
    var cs := FiveCardChoices(|pool|);
    CombosStart(5, 0, |pool|);
    assert cs[0] == [0, 1, 2, 3, 4];
    assert cs[1] == [0, 1, 2, 3, 5];
    forall i | 0 <= i < 7 ensures pool[i] == EarlyReturnPool()[i] {
      assert pool[i] == pool[..7][i];
    }
  }

  lemma FiveAcesAvailable(pool: seq<Card>, wild: set<Rank>, cap: nat)
    requires |pool| >= 7 && pool[..7] == EarlyReturnPool() && wild == {Queen, Seven}
    ensures IsCandidate(EvaluateFive, HandValue(FiveOfAKind, [Ace]), Select(pool, [0, 1, 2, 5, 6]), wild, cap)
    ensures PreCheck(Select(pool, [0, 1, 2, 5, 6]), wild) == Some(Ace)
  {
    var aces := Select(pool, [0, 1, 2, 5, 6]);
    assert pool[0] == pool[..7][0] && pool[1] == pool[..7][1] && pool[2] == pool[..7][2];
    assert pool[5] == pool[..7][5] && pool[6] == pool[..7][6];
    assert aces == [Card(Queen, Hearts), Card(Queen, Spades), Card(Seven, Clubs), Card(Ace, Spades), Card(Ace, Hearts)];
    FiveAcesCombo(aces, wild);
  }

  lemma FirstComboIsFiveFives(combo: seq<Card>, wild: set<Rank>)
    requires combo == [Card(Queen, Hearts), Card(Queen, Spades), Card(Seven, Clubs), Card(Five, Spades), Card(Five, Hearts)]
    requires wild == {Queen, Seven}
    ensures PreCheck(combo, wild) == Some(Five)
  {
    PreCheckIffOneNaturalRank(combo, wild, Five);
    assert combo[0].rank in wild && combo[3].rank !in wild;
  }

  lemma SecondComboIsExpanded(combo: seq<Card>, wild: set<Rank>)
    requires combo == [Card(Queen, Hearts), Card(Queen, Spades), Card(Seven, Clubs), Card(Five, Spades), Card(Ace, Spades)]
    requires wild == {Queen, Seven}
    ensures PreCheck(combo, wild) == None
  {
    var pc := PreCheck(combo, wild);
    var r: Rank := if pc.Some? then pc.value else Five;
    PreCheckIffOneNaturalRank(combo, wild, r);
    assert combo[3].rank !in wild && combo[4].rank !in wild && combo[3].rank != combo[4].rank;
  }

  lemma FiveAcesCombo(combo: seq<Card>, wild: set<Rank>)
    requires combo == [Card(Queen, Hearts), Card(Queen, Spades), Card(Seven, Clubs), Card(Ace, Spades), Card(Ace, Hearts)]
    requires wild == {Queen, Seven}
    ensures PreCheck(combo, wild) == Some(Ace)
  {
    PreCheckIffOneNaturalRank(combo, wild, Ace);
    assert combo[0].rank in wild && combo[3].rank !in wild;
  }

  /** After five fives, the first hand expanded from Q♥ Q♠ 7♣ 5♠ A♠ cannot be Five of a Kind, and the early return fires. */
  lemma SecondComboReturns(s1: Best, combo: seq<Card>, wild: set<Rank>, cap: nat)
    requires s1.value.Some? && s1.value.value.category == FiveOfAKind
    requires combo == [Card(Queen, Hearts), Card(Queen, Spades), Card(Seven, Clubs), Card(Five, Spades), Card(Ace, Spades)]
    requires wild == {Queen, Seven} && cap >= 1
    ensures PreCheck(combo, wild) == None
    ensures ScanHands(EvaluateFive, s1, Expansion(combo, wild, cap), combo, true) == (s1, true)
  {
    SecondComboIsExpanded(combo, wild);
    var hands := Expansion(combo, wild, cap);
    ExpansionNonEmpty(combo, wild, cap);
    ExpansionShape(combo, wild, cap, hands[0]);
    forall p, q | 0 <= p < q < 5 && combo[p].rank !in wild && combo[q].rank !in wild ensures combo[p] != combo[q] {
      assert p == 3 && q == 4;
    }
    ExpansionDistinct(combo, wild, cap, hands[0]);
    NoFiveOfAKindWithoutWilds(hands[0]);
    assert ConsiderExpanded(s1, EvaluateFive(hands[0]), combo) == s1;
  }
}
