/**
 * Seven-card stud, Follow the Queen (`StudFollowQueenGame`,
 * game_classes.py:516-1008; the same `_check_for_queens` at app.py:940-975).
 * Each player gets two down cards and one up card on third street, one up
 * card on each of fourth to sixth street and one down card on seventh.
 * Queens are always wild; a Queen dealt face up makes the rank of the
 * next face-up card wild as well, and the last Queen of a batch decides.
 * The lowest door card brings it in, and in the Hi-Lo mode the pot is
 * split between the best high hand and the best qualifying low.
 */
module FollowTheQueen {
  import opened Wrappers
  import opened Cards
  import opened Combinations
  import opened HandEvaluator
  import opened HandComparison
  import opened WildCardEvaluator
  import opened LowHandEvaluator
  import opened PokerTable

  // ---------------------------------------------------------------------------
  // _check_for_queens
  // ---------------------------------------------------------------------------

  /** One `wild_card_history` entry: the phase, the Queen, the seat it was dealt to, and the wild rank it named. */
  datatype WildChange = WildChange(phase: Phase, trigger: Card, seat: nat, wild: Rank)

  /** `list.index`: the first position holding `x`. */
  function IndexOf<T(==)>(xs: seq<T>, x: T): (i: nat)
    requires x in xs
    ensures i < |xs| && xs[i] == x && forall k :: 0 <= k < i ==> xs[k] != x
  {
    if xs[0] == x then 0 else 1 + IndexOf(xs[1..], x)
  }

  /** No (seat, card) entry of a batch occurs twice, as with cards popped from one deck. */
  ghost predicate NoRepeats(dealt: seq<(nat, Card)>)
  {
    forall i, j :: 0 <= i < j < |dealt| ==> dealt[i] != dealt[j]
  }

  /** The rank a Queen at position `i` of the batch makes wild: the next card's rank, or Queen when it was dealt last. */
  function FollowingRank(dealt: seq<(nat, Card)>, i: nat): Rank
    requires i < |dealt|
  {
    if i < |dealt| - 1 then dealt[i + 1].1.rank else Queen
  }

  /** `queens = [(p, c) for p, c in newly_dealt_cards if c['rank'] == 'Q']`, over the first `n` entries. */
  function QueensIn(dealt: seq<(nat, Card)>, n: nat): (q: seq<(nat, Card)>)
    requires n <= |dealt|
    ensures |q| <= n
    ensures forall k :: 0 <= k < |q| ==> q[k] in dealt && q[k].1.rank == Queen
    ensures forall i :: 0 <= i < n && dealt[i].1.rank == Queen ==> dealt[i] in q
  {
    if n == 0 then []
    else
      var q := QueensIn(dealt, n - 1);
      if dealt[n - 1].1.rank == Queen then q + [dealt[n - 1]] else q
  }

  /** Where the Queens of the first `n` entries were dealt: in deal order, each holding the Queen `QueensIn` lists at the same place. */
  function QueenPositions(dealt: seq<(nat, Card)>, n: nat): (p: seq<nat>)
    requires n <= |dealt|
    ensures |p| == |QueensIn(dealt, n)|
    ensures forall k :: 0 <= k < |p| ==> p[k] < n && dealt[p[k]] == QueensIn(dealt, n)[k]
    ensures forall k, l :: 0 <= k < l < |p| ==> p[k] < p[l]
  {
    if n == 0 then []
    else
      var p := QueenPositions(dealt, n - 1);
      if dealt[n - 1].1.rank == Queen then p + [n - 1] else p
  }

  /** The history entries the loop over `queens` appends for its first `n` Queens. */
  function Changes(dealt: seq<(nat, Card)>, queens: seq<(nat, Card)>, phase: Phase, n: nat): (r: seq<WildChange>)
    requires n <= |queens| && forall k :: 0 <= k < |queens| ==> queens[k] in dealt
    ensures |r| == n
  {
    if n == 0 then []
    else
      var q := queens[n - 1];
      Changes(dealt, queens, phase, n - 1) + [WildChange(phase, q.1, q.0, FollowingRank(dealt, IndexOf(dealt, q)))]
  }

  /** One more Queen of the batch: one more entry, naming the rank dealt after that Queen. */
  lemma ChangesStep(dealt: seq<(nat, Card)>, queens: seq<(nat, Card)>, phase: Phase, k: nat, h: seq<WildChange>, w: Rank)
    requires k < |queens| && forall j :: 0 <= j < |queens| ==> queens[j] in dealt
    ensures
      var c := WildChange(phase, queens[k].1, queens[k].0, FollowingRank(dealt, IndexOf(dealt, queens[k])));
      && h + Changes(dealt, queens, phase, k + 1) == h + Changes(dealt, queens, phase, k) + [c]
      && WildAfter(w, Changes(dealt, queens, phase, k + 1)) == c.wild
  {
  }

  /** Everything `_check_for_queens` appends for a batch dealt during `phase`. */
  function QueenChanges(dealt: seq<(nat, Card)>, phase: Phase): (r: seq<WildChange>)
  {
    var queens := QueensIn(dealt, |dealt|);
    assert dealt[..|dealt|] == dealt;
    Changes(dealt, queens, phase, |queens|)
  }

  /** The wild rank after a batch: the one the last change named, or the old one when no Queen was dealt. */
  function WildAfter(wild: Rank, changes: seq<WildChange>): Rank
  {
    if changes == [] then wild else changes[|changes| - 1].wild
  }

  /** Entry `c` records a Queen at position `i` of the batch and names the rank that followed it. */
  ghost predicate RecordsQueen(dealt: seq<(nat, Card)>, phase: Phase, c: WildChange)
  {
    exists i :: 0 <= i < |dealt| && dealt[i] == (c.seat, c.trigger) && c.trigger.rank == Queen
      && c.phase == phase && c.wild == FollowingRank(dealt, i)
  }

  /**
   * With no entry dealt twice, `_check_for_queens` appends one entry per
   * Queen, in deal order, and each names the rank of the card dealt right
   * after its Queen, or Queen when nothing followed.
   */
  lemma QueenChangesRecord(dealt: seq<(nat, Card)>, phase: Phase)
    requires NoRepeats(dealt)
    ensures |QueenChanges(dealt, phase)| == |QueensIn(dealt, |dealt|)|
    ensures forall k :: 0 <= k < |QueenChanges(dealt, phase)| ==> RecordsQueen(dealt, phase, QueenChanges(dealt, phase)[k])
    ensures forall k :: 0 <= k < |QueenChanges(dealt, phase)| ==>
      var c := QueenChanges(dealt, phase)[k];
      var i := QueenPositions(dealt, |dealt|)[k];
      && (c.seat, c.trigger) == QueensIn(dealt, |dealt|)[k] == dealt[i]
      && c.phase == phase && c.wild == FollowingRank(dealt, i)
  {
    var queens := QueensIn(dealt, |dealt|);
    assert dealt[..|dealt|] == dealt;
    ChangesRecord(dealt, queens, phase, |queens|);
    ChangesEntries(dealt, queens, phase, |queens|);
    var p := QueenPositions(dealt, |dealt|);
    forall k | 0 <= k < |queens| ensures IndexOf(dealt, queens[k]) == p[k] {
    }
  }

  /** Entry `k` of the loop's history is built from the `k`-th Queen of the batch. */
  lemma {:induction false} ChangesEntries(dealt: seq<(nat, Card)>, queens: seq<(nat, Card)>, phase: Phase, n: nat)
    requires n <= |queens| && forall k :: 0 <= k < |queens| ==> queens[k] in dealt
    ensures forall k :: 0 <= k < n ==>
      Changes(dealt, queens, phase, n)[k] == WildChange(phase, queens[k].1, queens[k].0, FollowingRank(dealt, IndexOf(dealt, queens[k])))
  {
    if n > 0 {
      ChangesEntries(dealt, queens, phase, n - 1);
    }
  }

  lemma {:induction false} ChangesRecord(dealt: seq<(nat, Card)>, queens: seq<(nat, Card)>, phase: Phase, n: nat)
    requires NoRepeats(dealt)
    requires n <= |queens| && forall k :: 0 <= k < |queens| ==> queens[k] in dealt && queens[k].1.rank == Queen
    ensures forall k :: 0 <= k < n ==> RecordsQueen(dealt, phase, Changes(dealt, queens, phase, n)[k])
  {
    if n > 0 {
      ChangesRecord(dealt, queens, phase, n - 1);
      var q := queens[n - 1];
      var i := IndexOf(dealt, q);
      var r := Changes(dealt, queens, phase, n);
      assert r == Changes(dealt, queens, phase, n - 1) + [WildChange(phase, q.1, q.0, FollowingRank(dealt, i))];
      assert RecordsQueen(dealt, phase, r[n - 1]);
    }
  }

  /** A batch without a Queen leaves the wild rank and the history as they were. */
  lemma NoQueenNoChange(dealt: seq<(nat, Card)>, phase: Phase, wild: Rank)
    requires forall i :: 0 <= i < |dealt| ==> dealt[i].1.rank != Queen
    ensures QueenChanges(dealt, phase) == [] && WildAfter(wild, QueenChanges(dealt, phase)) == wild
  {
    assert dealt[..|dealt|] == dealt;
  }

  /** Past the last Queen the filter gains nothing. */
  lemma {:induction false} QueensAfterLast(dealt: seq<(nat, Card)>, i: nat, n: nat)
    requires i < n <= |dealt| && dealt[i].1.rank == Queen
    requires forall j :: i < j < |dealt| ==> dealt[j].1.rank != Queen
    ensures QueensIn(dealt, n) == QueensIn(dealt, i) + [dealt[i]]
  {
    if n > i + 1 {
      QueensAfterLast(dealt, i, n - 1);
    }
  }

  /**
   * The last Queen of a batch decides: with no entry dealt twice, the wild
   * rank afterwards is the rank of the card dealt right after the last
   * Queen, or Queen when that Queen was the last card of the batch.
   */
  lemma LastQueenDecides(dealt: seq<(nat, Card)>, phase: Phase, wild: Rank, i: nat)
    requires NoRepeats(dealt)
    requires i < |dealt| && dealt[i].1.rank == Queen
    requires forall j :: i < j < |dealt| ==> dealt[j].1.rank != Queen
    ensures WildAfter(wild, QueenChanges(dealt, phase)) == FollowingRank(dealt, i)
  {
    assert dealt[..|dealt|] == dealt;
    QueensAfterLast(dealt, i, |dealt|);
    var queens := QueensIn(dealt, |dealt|);
    var idx := IndexOf(dealt, dealt[i]);
    assert idx == i;
  }

  /** A Queen of hearts and then a seven of spades in one batch make sevens wild. */
  lemma QueenThenSeven(dealt: seq<(nat, Card)>, phase: Phase, wild: Rank)
    requires |dealt| == 2 && dealt[0].1 == Card(Queen, Hearts) && dealt[1].1 == Card(Seven, Spades)
    ensures WildAfter(wild, QueenChanges(dealt, phase)) == Seven
    ensures QueenChanges(dealt, phase) == [WildChange(phase, Card(Queen, Hearts), dealt[0].0, Seven)]
  {
    assert dealt[0] != dealt[1];
    LastQueenDecides(dealt, phase, wild, 0);
    assert dealt[..2] == dealt;
    assert QueensIn(dealt, 1) == [dealt[0]];
    assert QueensIn(dealt, 2) == [dealt[0]];
    assert IndexOf(dealt, dealt[0]) == 0;
  }

  /** A Queen dealt as the last card of a batch leaves only Queens wild. */
  lemma QueenDealtLast(dealt: seq<(nat, Card)>, phase: Phase, wild: Rank)
    requires NoRepeats(dealt) && |dealt| >= 1 && dealt[|dealt| - 1].1.rank == Queen
    ensures WildAfter(wild, QueenChanges(dealt, phase)) == Queen
  {
    LastQueenDecides(dealt, phase, wild, |dealt| - 1);
  }

  // ---------------------------------------------------------------------------
  // _determine_bring_in and _post_bring_in
  // ---------------------------------------------------------------------------

  /** `suit_order`: clubs, diamonds, hearts, spades. */
  function SuitOrder(s: Suit): (o: nat)
    ensures o < 4
  {
    if s == Clubs then 0 else if s == Diamonds then 1 else if s == Hearts then 2 else 3
  }

  /** A player the bring-in scan looks at: still in the hand and showing an up card. */
  predicate ShowsCard(p: Player)
  {
    !p.folded && |p.up| > 0
  }

  /** `p`'s first up card is lower than `q`'s: lower rank, or the same rank in a lower suit. */
  predicate LowerDoor(p: Player, q: Player)
    requires |p.up| > 0 && |q.up| > 0
  {
    var a, b := p.up[0], q.up[0];
    a.rank < b.rank || (a.rank == b.rank && SuitOrder(a.suit) < SuitOrder(b.suit))
  }

  /** The scan of `_determine_bring_in` over the first `n` seats: the lowest door card so far, the first one on a tie. */
  function LowestDoor(ps: seq<Player>, n: nat): (r: Option<nat>)
    requires n <= |ps|
    ensures r.Some? ==> r.value < n && ShowsCard(ps[r.value])
  {
    if n == 0 then None
    else
      var b := LowestDoor(ps, n - 1);
      if !ShowsCard(ps[n - 1]) then b
      else if b.None? || LowerDoor(ps[n - 1], ps[b.value]) then Some(n - 1)
      else b
  }

  /** `_determine_bring_in`: the seat with the lowest door card, or seat 0 when nobody shows one. */
  function BringIn(ps: seq<Player>): (b: nat)
    ensures |ps| >= 1 ==> b < |ps|
  {
    match LowestDoor(ps, |ps|)
    case None => 0
    case Some(b) => b
  }

  /** The seat `b` has the lowest door card among the first `n` seats, and no earlier seat ties it. */
  ghost predicate LowestAmong(ps: seq<Player>, b: nat, n: nat)
    requires n <= |ps|
  {
    && b < n && ShowsCard(ps[b])
    && (forall j :: 0 <= j < n && ShowsCard(ps[j]) ==> !LowerDoor(ps[j], ps[b]))
    && (forall j :: 0 <= j < b && ShowsCard(ps[j]) ==> LowerDoor(ps[b], ps[j]))
  }

  lemma {:induction false} LowestDoorIsLowest(ps: seq<Player>, n: nat)
    requires n <= |ps|
    ensures LowestDoor(ps, n).None? <==> forall j :: 0 <= j < n ==> !ShowsCard(ps[j])
    ensures LowestDoor(ps, n).Some? ==> LowestAmong(ps, LowestDoor(ps, n).value, n)
  {
    if n > 0 {
      LowestDoorIsLowest(ps, n - 1);
      var b := LowestDoor(ps, n - 1);
      var p := ps[n - 1];
      if ShowsCard(p) && b.Some? && LowerDoor(p, ps[b.value]) {
        forall j | 0 <= j < n && ShowsCard(ps[j]) ensures !LowerDoor(ps[j], p) {
          if j < n - 1 {
            assert !LowerDoor(ps[j], ps[b.value]);
          }
        }
        forall j | 0 <= j < n - 1 && ShowsCard(ps[j]) ensures LowerDoor(p, ps[j]) {
          assert !LowerDoor(ps[j], ps[b.value]);
        }
      } else if ShowsCard(p) && b.Some? {
        var c := b.value;
        assert !LowerDoor(p, ps[c]);
        if LowerDoor(ps[c], p) {
        } else {
          assert p.up[0].rank == ps[c].up[0].rank && SuitOrder(p.up[0].suit) == SuitOrder(ps[c].up[0].suit);
        }
      }
    }
  }

  /**
   * The bring-in goes to the player still in the hand whose first up card
   * is lowest, by rank and then clubs, diamonds, hearts, spades; to the
   * first such seat on an exact tie; and to seat 0 when nobody shows a card.
   */
  lemma BringInIsLowest(ps: seq<Player>)
    ensures (exists j :: 0 <= j < |ps| && ShowsCard(ps[j])) ==> LowestAmong(ps, BringIn(ps), |ps|)
    ensures (forall j :: 0 <= j < |ps| ==> !ShowsCard(ps[j])) ==> BringIn(ps) == 0
  {
    LowestDoorIsLowest(ps, |ps|);
  }

  /** `_post_bring_in`: the seat puts in what it can afford up to the bring-in, which becomes the bet to match. */
  function BroughtIn(s: TableState, seat: nat, amount: nat): TableState
    requires seat < |s.players|
  {
    var p := s.players[seat];
    var a := Min(amount, p.chips);
    s.(players := s.players[seat := p.(chips := p.chips - a, bet := a)], pot := s.pot + a,
       currentBet := a, lastRaiser := Some(seat))
  }

  /**
   * The bring-in moves chips from one stack to the pot, never more than
   * the stack; the bet to match is what was actually put in, and that seat
   * is the last raiser.
   */
  lemma BringInFacts(s: TableState, seat: nat, amount: nat)
    requires Funded(s.players) && seat < |s.players|
    ensures
      var r := BroughtIn(s, seat, amount);
      var p := s.players[seat];
      && Funded(r.players) && |r.players| == |s.players|
      && r.pot + TotalChips(r.players) == s.pot + TotalChips(s.players)
      && r.currentBet == r.players[seat].bet == p.chips - r.players[seat].chips
      && 0 <= r.currentBet <= amount
      && (r.currentBet < amount ==> r.players[seat].chips == 0)
      && r.lastRaiser == Some(seat)
      && (forall j :: 0 <= j < |s.players| && j != seat ==> r.players[j] == s.players[j])
  {
    var r := BroughtIn(s, seat, amount);
    TotalChipsUpdate(s.players, seat, r.players[seat]);
  }

  // ---------------------------------------------------------------------------
  // _initialize_hand: third street
  // ---------------------------------------------------------------------------

  /**
   * The deal of `_initialize_hand` over the first `n` seats: every seat,
   * folded or not, takes two down cards and then one up card off the top
   * of the deck, and each up card is recorded with its seat, in deal order.
   */
  function ThirdStreetDeal(ps: seq<Player>, deck: seq<Card>, n: nat): (r: (seq<Player>, seq<Card>, seq<(nat, Card)>))
    requires n <= |ps| && 3 * n <= |deck|
    ensures |r.0| == |ps| && |r.1| == |deck| - 3 * n && |r.2| == n
  {
    if n == 0 then (ps, deck, [])
    else
      var r := ThirdStreetDeal(ps, deck, n - 1);
      var m := |r.1|;
      var p := r.0[n - 1];
      (r.0[n - 1 := p.(down := p.down + [r.1[m - 1], r.1[m - 2]], up := p.up + [r.1[m - 3]])],
       r.1[..m - 3], r.2 + [(n - 1, r.1[m - 3])])
  }

  /** What seat `j` holds after third street, with `M` cards in the deck before the deal. */
  function ThirdStreetSeat(p: Player, deck: seq<Card>, j: nat): Player
    requires 3 * j + 3 <= |deck|
  {
    var M := |deck|;
    p.(down := p.down + [deck[M - 1 - 3 * j], deck[M - 2 - 3 * j]], up := p.up + [deck[M - 3 - 3 * j]])
  }

  /** The up cards of third street, in deal order, with their seats. */
  function ThirdStreetUps(deck: seq<Card>, n: nat): (r: seq<(nat, Card)>)
    requires 3 * n <= |deck|
    ensures |r| == n && forall j :: 0 <= j < n ==> r[j] == (j, deck[|deck| - 3 - 3 * j])
  {
    seq(n, j requires 0 <= j < n => (j, deck[|deck| - 3 - 3 * j]))
  }

  /**
   * Third street deals three cards a seat, seat by seat, from the top of
   * the deck: seat `j` gets the cards `3j` and `3j + 1` places from the top
   * face down and the card `3j + 2` places from the top face up; seats past
   * `n` get nothing, and the deck loses exactly the cards dealt.
   */
  lemma {:induction false} ThirdStreetFacts(ps: seq<Player>, deck: seq<Card>, n: nat)
    requires n <= |ps| && 3 * n <= |deck|
    ensures ThirdStreetDeal(ps, deck, n).1 == deck[..|deck| - 3 * n]
    ensures ThirdStreetDeal(ps, deck, n).2 == ThirdStreetUps(deck, n)
    ensures forall j :: 0 <= j < n ==> ThirdStreetDeal(ps, deck, n).0[j] == ThirdStreetSeat(ps[j], deck, j)
    ensures forall j :: n <= j < |ps| ==> ThirdStreetDeal(ps, deck, n).0[j] == ps[j]
  {
    if n > 0 {
      ThirdStreetFacts(ps, deck, n - 1);
      var r := ThirdStreetDeal(ps, deck, n - 1);
      var R := ThirdStreetDeal(ps, deck, n);
      var M, m := |deck|, |r.1|;
      assert m == M - 3 * (n - 1);
      assert r.1[m - 1] == deck[M - 1 - 3 * (n - 1)];
      assert r.1[m - 2] == deck[M - 2 - 3 * (n - 1)];
      assert r.1[m - 3] == deck[M - 3 - 3 * (n - 1)];
      assert R.0[n - 1] == ThirdStreetSeat(ps[n - 1], deck, n - 1);
      assert R.2 == ThirdStreetUps(deck, n);
    }
  }

  /** Third street changes nothing about a player but their cards, so stacks, bets and folds stay as they were. */
  lemma ThirdStreetOnlyCards(ps: seq<Player>, deck: seq<Card>)
    requires 3 * |ps| <= |deck|
    ensures
      var qs := ThirdStreetDeal(ps, deck, |ps|).0;
      && (forall j :: 0 <= j < |ps| ==> CardsOnly(ps[j], qs[j]))
      && TotalChips(qs) == TotalChips(ps)
      && (Funded(ps) ==> Funded(qs))
  {
    ThirdStreetFacts(ps, deck, |ps|);
    TotalChipsAgree(ThirdStreetDeal(ps, deck, |ps|).0, ps);
  }

  /** No two up cards of third street go to the same seat, so the batch has no repeated entry. */
  lemma ThirdStreetUpsDistinct(deck: seq<Card>, n: nat)
    requires 3 * n <= |deck|
    ensures NoRepeats(ThirdStreetUps(deck, n))
  {
  }

  /** The table after the antes and third street, with the up cards dealt. */
  function AntedAndDealt(s: TableState, ante: nat): (r: (TableState, seq<(nat, Card)>))
    requires 3 * |s.players| <= |s.deck|
    ensures |r.0.players| == |s.players|
  {
    var a := AntesPosted(s, ante);
    var d := ThirdStreetDeal(a.players, a.deck, |a.players|);
    (a.(players := d.0, deck := d.1), d.2)
  }

  /**
   * `_initialize_hand` on the table: antes, third street, the Queens among
   * the up cards (with the wild rank reset to Queens first), the bring-in
   * from the lowest door card, and the turn from the bring-in seat onwards
   * to the first player who can act. The result is the table, the wild
   * rank and the wild-card history.
   */
  function StudOpening(s: TableState, ante: nat, bringIn: nat): (TableState, Rank, seq<WildChange>)
    requires 1 <= |s.players| && 3 * |s.players| <= |s.deck|
  {
    var (c, dealt) := AntedAndDealt(s, ante);
    var changes := QueenChanges(dealt, s.phase);
    var b := BringIn(c.players);
    var o := BroughtIn(c, b, bringIn);
    (o.(current := Skip(o.players, b)), WildAfter(Queen, changes), changes)
  }

  /**
   * After the antes and third street every chip is still accounted for,
   * `3n` cards have left the top of the deck, seat `j` holds the cards
   * `3j`, `3j + 1` (down) and `3j + 2` (up) places from the top, and nothing
   * else has changed.
   */
  lemma AntedAndDealtFacts(s: TableState, ante: nat)
    requires Funded(s.players) && 3 * |s.players| <= |s.deck|
    ensures
      var n, M := |s.players|, |s.deck|;
      var (c, dealt) := AntedAndDealt(s, ante);
      && Funded(c.players)
      && c.pot + TotalChips(c.players) == s.pot + TotalChips(s.players)
      && c.deck == s.deck[..M - 3 * n]
      && dealt == ThirdStreetUps(s.deck, n)
      && (forall j :: 0 <= j < n ==> c.players[j].down == s.players[j].down + [s.deck[M - 1 - 3 * j], s.deck[M - 2 - 3 * j]])
      && (forall j :: 0 <= j < n ==> c.players[j].up == s.players[j].up + [s.deck[M - 3 - 3 * j]])
      && (forall j :: 0 <= j < n ==> c.players[j].folded == s.players[j].folded && c.players[j].allIn == s.players[j].allIn)
      && c == s.(players := c.players, pot := c.pot, deck := c.deck)
  {
    AntedAndDealtChips(s, ante);
    AntedAndDealtCards(s, ante);
  }

  /** `AntedAndDealtFacts` for the stacks and the rest of the table. */
  lemma AntedAndDealtChips(s: TableState, ante: nat)
    requires Funded(s.players) && 3 * |s.players| <= |s.deck|
    ensures
      var c := AntedAndDealt(s, ante).0;
      && Funded(c.players)
      && c.pot + TotalChips(c.players) == s.pot + TotalChips(s.players)
      && (forall j :: 0 <= j < |s.players| ==> c.players[j].folded == s.players[j].folded && c.players[j].allIn == s.players[j].allIn)
      && c == s.(players := c.players, pot := c.pot, deck := c.deck)
  {
    var a := AntesPosted(s, ante);
    assert
      && Funded(a.players) && |a.players| == |s.players|
      && a.pot + TotalChips(a.players) == s.pot + TotalChips(s.players)
      && (forall j :: 0 <= j < |s.players| ==> a.players[j].folded == s.players[j].folded && a.players[j].allIn == s.players[j].allIn)
      && a == s.(players := a.players, pot := a.pot)
    by {
      AntesFacts(s, ante);
    }
    ThirdStreetOnlyCards(a.players, a.deck);
  }

  /** `AntedAndDealtFacts` for the cards. */
  lemma AntedAndDealtCards(s: TableState, ante: nat)
    requires Funded(s.players) && 3 * |s.players| <= |s.deck|
    ensures
      var n, M := |s.players|, |s.deck|;
      var (c, dealt) := AntedAndDealt(s, ante);
      && c.deck == s.deck[..M - 3 * n]
      && dealt == ThirdStreetUps(s.deck, n)
      && (forall j :: 0 <= j < n ==> c.players[j].down == s.players[j].down + [s.deck[M - 1 - 3 * j], s.deck[M - 2 - 3 * j]])
      && (forall j :: 0 <= j < n ==> c.players[j].up == s.players[j].up + [s.deck[M - 3 - 3 * j]])
  {
    var q := AntesPosted(s, ante).players;
    AntesKeepCards(s, ante);
    AntedAndDealtIs(s, ante);
    DealtOverAnted(s, ante, q);
  }

  /** Antes take chips and nothing else: the deck and every card stay. */
  lemma AntesKeepCards(s: TableState, ante: nat)
    requires Funded(s.players)
    ensures
      var a := AntesPosted(s, ante);
      && a.deck == s.deck && |a.players| == |s.players|
      && forall j :: 0 <= j < |s.players| ==> a.players[j].down == s.players[j].down && a.players[j].up == s.players[j].up
  {
    AntesFacts(s, ante);
  }

  /** `AntedAndDealt` is third street dealt over the anted seats. */
  lemma AntedAndDealtIs(s: TableState, ante: nat)
    requires 3 * |s.players| <= |s.deck|
    ensures
      var q := AntesPosted(s, ante).players;
      var d := ThirdStreetDeal(q, s.deck, |s.players|);
      var (c, dealt) := AntedAndDealt(s, ante);
      c.players == d.0 && c.deck == d.1 && dealt == d.2
  {
  }

  /** `AntedAndDealtCards` once the anted seats `q` are known to hold the cards of `s`. */
  lemma DealtOverAnted(s: TableState, ante: nat, q: seq<Player>)
    requires 3 * |s.players| <= |s.deck| && |q| == |s.players|
    requires forall j :: 0 <= j < |s.players| ==> q[j].down == s.players[j].down && q[j].up == s.players[j].up
    requires
      var d := ThirdStreetDeal(q, s.deck, |s.players|);
      var (c, dealt) := AntedAndDealt(s, ante);
      c.players == d.0 && c.deck == d.1 && dealt == d.2
    ensures
      var n, M := |s.players|, |s.deck|;
      var (c, dealt) := AntedAndDealt(s, ante);
      && c.deck == s.deck[..M - 3 * n]
      && dealt == ThirdStreetUps(s.deck, n)
      && (forall j :: 0 <= j < n ==> c.players[j].down == s.players[j].down + [s.deck[M - 1 - 3 * j], s.deck[M - 2 - 3 * j]])
      && (forall j :: 0 <= j < n ==> c.players[j].up == s.players[j].up + [s.deck[M - 3 - 3 * j]])
  {
    ThirdStreetFacts(q, s.deck, |s.players|);
  }

  /** The bring-in seat reads the same on tables whose folds and up cards agree. */
  lemma {:induction false} LowestDoorAgrees(ps: seq<Player>, qs: seq<Player>, n: nat)
    requires n <= |ps| == |qs|
    requires forall j :: 0 <= j < |ps| ==> ps[j].folded == qs[j].folded && ps[j].up == qs[j].up
    ensures LowestDoor(ps, n) == LowestDoor(qs, n)
  {
    if n > 0 {
      LowestDoorAgrees(ps, qs, n - 1);
    }
  }

  /**
   * The opening of a Stud hand keeps the table seated and every chip
   * accounted for; the bring-in seat is the one with the lowest door card,
   * it has put in at most the bring-in, that is the bet to match, and it is
   * the last raiser; the turn starts from it; and the wild rank and the
   * history are what the Queens among the third-street up cards make of a
   * fresh start.
   */
  lemma StudOpeningFacts(s: TableState, ante: nat, bringIn: nat)
    requires Funded(s.players) && 1 <= |s.players| && 3 * |s.players| <= |s.deck|
    ensures
      var n := |s.players|;
      var c := AntedAndDealt(s, ante).0;
      var (o, wild, history) := StudOpening(s, ante, bringIn);
      var b := BringIn(o.players);
      && Seated(o) && |o.players| == n
      && o.pot + TotalChips(o.players) == s.pot + TotalChips(s.players)
      && o.deck == c.deck
      && (forall j :: 0 <= j < n ==> o.players[j].down == c.players[j].down && o.players[j].up == c.players[j].up)
      && (forall j :: 0 <= j < n ==> o.players[j].folded == s.players[j].folded && o.players[j].allIn == s.players[j].allIn)
      && ((exists j :: 0 <= j < n && ShowsCard(o.players[j])) ==> LowestAmong(o.players, b, n))
      && o.lastRaiser == Some(b) && o.currentBet == o.players[b].bet <= bringIn
      && LandsFrom(o.players, b, 0, o.current)
      && history == QueenChanges(ThirdStreetUps(s.deck, n), s.phase)
      && wild == WildAfter(Queen, history)
      && o.phase == s.phase && o.dealer == s.dealer && o.roundComplete == s.roundComplete
  {
    AntedAndDealtFacts(s, ante);
    var (c, dealt) := AntedAndDealt(s, ante);
    var b := BringIn(c.players);
    assert StudOpening(s, ante, bringIn).0 == BroughtIn(c, b, bringIn).(current := Skip(BroughtIn(c, b, bringIn).players, b));
    BroughtInFacts(s, c, dealt, bringIn, StudOpening(s, ante, bringIn).0);
  }

  /** `StudOpeningFacts` for the table `c` after the antes and third street. */
  lemma BroughtInFacts(s: TableState, c: TableState, dealt: seq<(nat, Card)>, bringIn: nat, o: TableState)
    requires 1 <= |s.players| && |c.players| == |s.players| && Funded(c.players)
    requires c.pot + TotalChips(c.players) == s.pot + TotalChips(s.players)
    requires forall j :: 0 <= j < |s.players| ==> c.players[j].folded == s.players[j].folded && c.players[j].allIn == s.players[j].allIn
    requires c == s.(players := c.players, pot := c.pot, deck := c.deck)
    requires
      var b := BringIn(c.players);
      o == BroughtIn(c, b, bringIn).(current := Skip(BroughtIn(c, b, bringIn).players, b))
    ensures
      var n := |s.players|;
      var b := BringIn(o.players);
      && Seated(o) && |o.players| == n
      && o.pot + TotalChips(o.players) == s.pot + TotalChips(s.players)
      && o.deck == c.deck
      && (forall j :: 0 <= j < n ==> o.players[j].down == c.players[j].down && o.players[j].up == c.players[j].up)
      && (forall j :: 0 <= j < n ==> o.players[j].folded == s.players[j].folded && o.players[j].allIn == s.players[j].allIn)
      && ((exists j :: 0 <= j < n && ShowsCard(o.players[j])) ==> LowestAmong(o.players, b, n))
      && o.lastRaiser == Some(b) && o.currentBet == o.players[b].bet <= bringIn
      && LandsFrom(o.players, b, 0, o.current)
      && o.phase == s.phase && o.dealer == s.dealer && o.roundComplete == s.roundComplete
  {
    var b := BringIn(c.players);
    var t := BroughtIn(c, b, bringIn);
    BroughtInState(s, c, b, bringIn, t);
    BroughtInTurn(c, b, t);
    SkipLands(t.players, b);
  }

  /** The bring-in on the table `c`: chips, flags and the bet to match. */
  lemma BroughtInState(s: TableState, c: TableState, b: nat, bringIn: nat, t: TableState)
    requires b < |c.players| == |s.players| && Funded(c.players)
    requires c.pot + TotalChips(c.players) == s.pot + TotalChips(s.players)
    requires forall j :: 0 <= j < |s.players| ==> c.players[j].folded == s.players[j].folded && c.players[j].allIn == s.players[j].allIn
    requires c == s.(players := c.players, pot := c.pot, deck := c.deck)
    requires t == BroughtIn(c, b, bringIn)
    ensures
      var n := |s.players|;
      && Funded(t.players) && |t.players| == n && t.currentBet >= 0
      && t.pot + TotalChips(t.players) == s.pot + TotalChips(s.players)
      && t.deck == c.deck
      && (forall j :: 0 <= j < n ==> t.players[j].down == c.players[j].down && t.players[j].up == c.players[j].up)
      && (forall j :: 0 <= j < n ==> t.players[j].folded == s.players[j].folded && t.players[j].allIn == s.players[j].allIn)
      && t.lastRaiser == Some(b) && t.currentBet == t.players[b].bet <= bringIn
      && t.phase == s.phase && t.dealer == s.dealer && t.roundComplete == s.roundComplete
  {
    BringInFacts(c, b, bringIn);
  }

  /** After the bring-in the lowest door card still points at the bring-in seat. */
  lemma BroughtInTurn(c: TableState, b: nat, t: TableState)
    requires 1 <= |c.players| == |t.players| && b == BringIn(c.players)
    requires forall j :: 0 <= j < |c.players| ==> t.players[j].folded == c.players[j].folded && t.players[j].up == c.players[j].up
    ensures BringIn(t.players) == b
    ensures (exists j :: 0 <= j < |t.players| && ShowsCard(t.players[j])) ==> LowestAmong(t.players, b, |t.players|)
  {
    LowestDoorAgrees(t.players, c.players, |c.players|);
    BringInIsLowest(t.players);
  }

  // ---------------------------------------------------------------------------
  // advance_phase and _deal_street_cards
  // ---------------------------------------------------------------------------

  /** The card each later street deals (face up or face down) and the phase it leads to. */
  function StudStreet(phase: Phase): Option<(Slot, Phase)>
  {
    match phase
    case ThirdStreet => Some((Up, FourthStreet))
    case FourthStreet => Some((Up, FifthStreet))
    case FifthStreet => Some((Up, SixthStreet))
    case SixthStreet => Some((Down, SeventhStreet))
    case _ => None
  }

  /** How many down and up cards each player still in the hand holds once `phase` has been dealt. */
  function CardCounts(phase: Phase): (nat, nat)
  {
    match phase
    case ThirdStreet => (2, 1)
    case FourthStreet => (2, 2)
    case FifthStreet => (2, 3)
    case SixthStreet => (2, 4)
    case SeventhStreet => (3, 4)
    case Showdown => (3, 4)
    case _ => (0, 0)
  }

  /** Every player still in the hand holds the cards `phase` calls for. */
  ghost predicate DealtFor(ps: seq<Player>, phase: Phase)
  {
    forall j :: 0 <= j < |ps| && !ps[j].folded ==>
      |ps[j].down| == CardCounts(phase).0 && |ps[j].up| == CardCounts(phase).1
  }

  /** A hand opens on third street with two down cards and one up card for everybody. */
  lemma OpeningDealsThird(s: TableState, ante: nat, bringIn: nat)
    requires Funded(s.players) && 1 <= |s.players| && 3 * |s.players| <= |s.deck|
    requires forall j :: 0 <= j < |s.players| ==> s.players[j].down == [] && s.players[j].up == []
    ensures DealtFor(StudOpening(s, ante, bringIn).0.players, ThirdStreet)
  {
    StudOpeningFacts(s, ante, bringIn);
    AntedAndDealtFacts(s, ante);
    ThreeCardsEach(s.players, AntedAndDealt(s, ante).0.players, StudOpening(s, ante, bringIn).0.players);
  }

  /** Seats that started empty and hold what third street dealt them: two down cards and one up. */
  lemma ThreeCardsEach(ps: seq<Player>, cs: seq<Player>, os: seq<Player>)
    requires |os| == |cs| == |ps|
    requires forall j :: 0 <= j < |ps| ==> ps[j].down == [] && ps[j].up == []
    requires forall j :: 0 <= j < |ps| ==> |cs[j].down| == |ps[j].down| + 2 && |cs[j].up| == |ps[j].up| + 1
    requires forall j :: 0 <= j < |ps| ==> os[j].down == cs[j].down && os[j].up == cs[j].up
    ensures DealtFor(os, ThirdStreet)
  {
  }

  /** A street adds one card to the down or the up count, as its slot says. */
  lemma CountsStep(phase: Phase, slot: Slot, next: Phase)
    requires StudStreet(phase) == Some((slot, next))
    ensures CardCounts(next).0 == CardCounts(phase).0 + (if slot == Down then 1 else 0)
    ensures CardCounts(next).1 == CardCounts(phase).1 + (if slot == Up then 1 else 0)
  {
  }

  /**
   * Each street deals one card to every player still in the hand, face up
   * on fourth to sixth street and face down on seventh, so the counts move
   * on with the phase.
   */
  lemma StreetDealsOne(ps: seq<Player>, deck: seq<Card>, phase: Phase, slot: Slot, next: Phase)
    requires StudStreet(phase) == Some((slot, next)) && Takers(ps, |ps|) <= |deck|
    requires DealtFor(ps, phase)
    ensures DealtFor(DealPass(ps, deck, slot, |ps|).0, next)
  {
    CountsStep(phase, slot, next);
    var r := DealPass(ps, deck, slot, |ps|);
    DealPassSkips(ps, deck, slot, |ps|);
    forall j | 0 <= j < |ps| && !r.0[j].folded
      ensures |r.0[j].down| == CardCounts(next).0 && |r.0[j].up| == CardCounts(next).1
    {
      DealtSeat(ps, deck, slot, j);
    }
  }

  /** A seat still in the hand gets one card in the slot dealt. */
  lemma DealtSeat(ps: seq<Player>, deck: seq<Card>, slot: Slot, j: nat)
    requires j < |ps| && Takers(ps, |ps|) <= |deck| && !ps[j].folded
    ensures |DealPass(ps, deck, slot, |ps|).0[j].down| == |ps[j].down| + (if slot == Down then 1 else 0)
    ensures |DealPass(ps, deck, slot, |ps|).0[j].up| == |ps[j].up| + (if slot == Up then 1 else 0)
    ensures !DealPass(ps, deck, slot, |ps|).0[j].folded
  {
    DealPassFacts(ps, deck, slot, |ps|, j);
  }

  /** Every player still in the hand on seventh street holds seven cards, enough to make five. */
  lemma SeventhHoldsSeven(ps: seq<Player>)
    requires DealtFor(ps, SeventhStreet)
    ensures forall j :: 0 <= j < |ps| && !ps[j].folded ==> |ps[j].down + ps[j].up| == 7
  {
  }

  /** A dealing pass records its seats in increasing order. */
  lemma {:induction false} DealPassSeatsIncrease(ps: seq<Player>, deck: seq<Card>, slot: Slot, n: nat)
    requires n <= |ps| && Takers(ps, n) <= |deck|
    ensures forall k :: 0 <= k < |DealPass(ps, deck, slot, n).2| ==> DealPass(ps, deck, slot, n).2[k].0 < n
    ensures forall k, l :: 0 <= k < l < |DealPass(ps, deck, slot, n).2| ==>
      DealPass(ps, deck, slot, n).2[k].0 < DealPass(ps, deck, slot, n).2[l].0
  {
    if n > 0 {
      DealPassSeatsIncrease(ps, deck, slot, n - 1);
    }
  }

  /** No (seat, card) entry of a dealing pass repeats, so the Queen lemmas apply to it. */
  lemma DealPassNoRepeats(ps: seq<Player>, deck: seq<Card>, slot: Slot, n: nat)
    requires n <= |ps| && Takers(ps, n) <= |deck|
    ensures NoRepeats(DealPass(ps, deck, slot, n).2)
  {
    DealPassSeatsIncrease(ps, deck, slot, n);
  }

  // ---------------------------------------------------------------------------
  // _evaluate_hands
  // ---------------------------------------------------------------------------

  /** The cap `expand_wild_cards` puts on the hands it generates. */
  const ExpansionCap: nat := 10000

  /** `wild_ranks`: Queens, and the current wild rank as well when it is another rank. */
  function Wilds(wildRank: Rank): set<Rank>
  {
    if wildRank == Queen then {Queen} else {Queen, wildRank}
  }

  /** Every player still in the hand holds at least five cards. */
  ghost predicate Evaluable(ps: seq<Player>)
  {
    forall j :: 0 <= j < |ps| && !ps[j].folded ==> |ps[j].down + ps[j].up| >= 5
  }

  /**
   * `h` is what `best_hand_with_wilds` (with the early return left out)
   * finds in `pool`: a value some five cards contribute, and one that no
   * five cards beat, with the wild cards substituted every way the cap
   * allows.
   */
  ghost predicate BestWild(h: HandValue, pool: seq<Card>, wild: set<Rank>)
  {
    && WellFormed(h)
    && (exists c :: IsCombo(c, 5, 0, |pool|) && IsCandidate(EvaluateFive, h, Select(pool, c), wild, ExpansionCap))
    && (forall c :: IsCombo(c, 5, 0, |pool|) ==> Dominates(EvaluateFive, h, Select(pool, c), wild, ExpansionCap))
  }

  /**
   * `q` is `p` after `_evaluate_hands`: a folded player is untouched; any
   * other holds the best high hand of their down and up cards and, in the
   * Hi-Lo mode, the best low of them.
   */
  ghost predicate StudEvaluatedSeat(p: Player, q: Player, wild: set<Rank>, hiLo: bool)
  {
    if p.folded then q == p
    else
      && q.hand.Some? && BestWild(q.hand.value, p.down + p.up, wild)
      && q == p.(hand := q.hand, low := q.low)
      && q.low == (if hiLo then Some(LowOutcome(p.down + p.up, wild)) else p.low)
  }

  ghost predicate StudEvaluated(before: seq<Player>, after: seq<Player>, wild: set<Rank>, hiLo: bool)
  {
    |after| == |before| && forall j :: 0 <= j < |before| ==> StudEvaluatedSeat(before[j], after[j], wild, hiLo)
  }

  /** Evaluating hands moves no chips, deals no cards and folds nobody. */
  lemma StudEvaluatedKeepsStacks(before: seq<Player>, after: seq<Player>, wild: set<Rank>, hiLo: bool)
    requires StudEvaluated(before, after, wild, hiLo)
    ensures forall j :: 0 <= j < |before| ==> after[j] == before[j].(hand := after[j].hand, low := after[j].low)
    ensures Funded(before) ==> Funded(after)
    ensures TotalChips(after) == TotalChips(before)
    ensures Where(after, InHand) == Where(before, InHand) && Where(after, CanAct) == Where(before, CanAct)
  {
    assert forall j :: 0 <= j < |before| ==> after[j] == before[j].(hand := after[j].hand, low := after[j].low) by {
      forall j | 0 <= j < |before| ensures after[j] == before[j].(hand := after[j].hand, low := after[j].low) {
        assert StudEvaluatedSeat(before[j], after[j], wild, hiLo);
      }
    }
    TotalChipsAgree(after, before);
    WhereAgree(after, before);
  }

  /** Evaluating the hands at the showdown leaves every player with the seven cards of seventh street. */
  lemma StudEvaluatedKeepsDealt(before: seq<Player>, after: seq<Player>, wild: set<Rank>, hiLo: bool)
    requires StudEvaluated(before, after, wild, hiLo)
    requires DealtFor(before, SeventhStreet)
    ensures DealtFor(after, Showdown)
  {
    StudEvaluatedKeepsStacks(before, after, wild, hiLo);
    assert CardCounts(Showdown) == CardCounts(SeventhStreet);
    forall j | 0 <= j < |after| && !after[j].folded
      ensures |after[j].down| == CardCounts(Showdown).0 && |after[j].up| == CardCounts(Showdown).1
    {
      assert after[j] == before[j].(hand := after[j].hand, low := after[j].low);
    }
  }

  /** After `_evaluate_hands` every player still in the hand holds a well-formed hand, and a low in the Hi-Lo mode. */
  lemma StudEvaluatedHands(before: seq<Player>, after: seq<Player>, wild: set<Rank>, hiLo: bool)
    requires StudEvaluated(before, after, wild, hiLo)
    ensures
      var active := Where(before, InHand);
      forall k :: 0 <= k < |active| ==>
        && active[k] < |after| && after[active[k]].hand.Some? && WellFormed(after[active[k]].hand.value)
        && (hiLo ==> after[active[k]].low == Some(LowOutcome(before[active[k]].down + before[active[k]].up, wild)))
  {
    var active := Where(before, InHand);
    forall k | 0 <= k < |active|
      ensures active[k] < |after| && after[active[k]].hand.Some? && WellFormed(after[active[k]].hand.value)
      ensures hiLo ==> after[active[k]].low == Some(LowOutcome(before[active[k]].down + before[active[k]].up, wild))
    {
      assert StudEvaluatedSeat(before[active[k]], after[active[k]], wild, hiLo);
    }
  }

  // ---------------------------------------------------------------------------
  // determine_winners: the best qualifying low
  // ---------------------------------------------------------------------------

  /** `lr and lr['qualifies']`. */
  predicate Qualifies(p: Player)
  {
    p.low.Some? && p.low.value.qualifies
  }

  /** `(lr['qualifies'], lr['low_values'])`, with the name kept for the payout entry. */
  function LowOf(l: LowHand): LowResult
  {
    LowResult(l.qualifies, l.values, l.name)
  }

  /** The seats among `active` whose low qualifies, in the order of `active`. */
  function Qualifiers(ps: seq<Player>, active: seq<nat>): (q: seq<nat>)
    requires forall k :: 0 <= k < |active| ==> active[k] < |ps|
    ensures |q| <= |active|
    ensures forall k :: 0 <= k < |q| ==> q[k] < |ps| && Qualifies(ps[q[k]])
  {
    if active == [] then []
    else
      var n := |active|;
      var q := Qualifiers(ps, active[..n - 1]);
      assert forall k :: 0 <= k < n - 1 ==> active[..n - 1][k] == active[k];
      q + (if Qualifies(ps[active[n - 1]]) then [active[n - 1]] else [])
  }

  /** Every seat among `active` whose low qualifies is a candidate. */
  lemma {:induction false} QualifiersComplete(ps: seq<Player>, active: seq<nat>)
    requires forall k :: 0 <= k < |active| ==> active[k] < |ps|
    ensures forall k :: 0 <= k < |active| && Qualifies(ps[active[k]]) ==> active[k] in Qualifiers(ps, active)
  {
    if active != [] {
      var n := |active|;
      QualifiersComplete(ps, active[..n - 1]);
      assert forall k :: 0 <= k < n - 1 ==> active[..n - 1][k] == active[k];
    }
  }

  /** The lows of the given seats. */
  function LowsAt(ps: seq<Player>, seats: seq<nat>): (r: seq<LowResult>)
    requires forall k :: 0 <= k < |seats| ==> seats[k] < |ps| && ps[seats[k]].low.Some? && ps[seats[k]].low.value.qualifies
    ensures |r| == |seats| && forall k :: 0 <= k < |seats| ==> r[k] == LowOf(ps[seats[k]].low.value) && r[k].qualifies
  {
    seq(|seats|, k requires 0 <= k < |seats| && seats[k] < |ps| && Qualifies(ps[seats[k]]) => LowOf(ps[seats[k]].low.value))
  }

  /** The seats the low scan of `determine_winners` picks among `active`: none when no low qualifies. */
  function LowSeats(ps: seq<Player>, active: seq<nat>): (w: seq<nat>)
    requires forall k :: 0 <= k < |active| ==> active[k] < |ps|
    ensures forall k :: 0 <= k < |w| ==> w[k] < |ps| && Qualifies(ps[w[k]])
  {
    var q := Qualifiers(ps, active);
    LeadersAmongSeats(q, LowsAt(ps, q), CompareLowHands, |q|);
    Leaders(q, LowsAt(ps, q), CompareLowHands, |q|).1
  }

  /** Seat `s` is one of the candidates `q` and its low values are `x`. */
  ghost predicate HoldsLow(q: seq<nat>, vals: seq<LowResult>, x: seq<int>, s: nat)
    requires |q| == |vals|
  {
    exists k :: 0 <= k < |q| && s == q[k] && vals[k].values == x
  }

  /** Over qualifying lows the scan finds a low no other is below, and exactly the seats whose values equal it. */
  lemma LowLeadersBest(q: seq<nat>, vals: seq<LowResult>)
    requires |q| == |vals| >= 1 && forall k :: 0 <= k < |vals| ==> vals[k].qualifies
    ensures
      var (b, w) := Leaders(q, vals, CompareLowHands, |q|);
      && 0 <= b < |q|
      && (forall j :: 0 <= j < |q| ==> !ListGreater(vals[b].values, vals[j].values))
      && (forall i :: 0 <= i < |w| ==> HoldsLow(q, vals, vals[b].values, w[i]))
      && (forall j :: 0 <= j < |q| && vals[j].values == vals[b].values ==> q[j] in w)
  {
    LowsRanked(vals);
    LeadersAreBest(q, vals, CompareLowHands, |q|);
    var (b, w) := Leaders(q, vals, CompareLowHands, |q|);
    var x := vals[b];
    TiedWithSays(q, vals, CompareLowHands, x, |q|);
    forall j | 0 <= j < |q| ensures !ListGreater(x.values, vals[j].values) {
      CompareLowHandsOrder(x, vals[j]);
    }
    forall i | 0 <= i < |w| ensures HoldsLow(q, vals, x.values, w[i]) {
      assert TiesAmong(q, vals, CompareLowHands, x, |q|, w[i]);
      var k :| 0 <= k < |q| && w[i] == q[k] && CompareLowHands(vals[k], x) == 0;
      CompareLowHandsOrder(vals[k], x);
    }
    forall j | 0 <= j < |q| && vals[j].values == x.values ensures q[j] in w {
      CompareLowHandsOrder(vals[j], x);
    }
  }

  /**
   * The low winners are exactly the players still in the hand whose low
   * qualifies and whose low values equal the best qualifying low, which no
   * qualifying low is below; there are none exactly when no low qualifies.
   */
  lemma LowWinnersHoldBest(ps: seq<Player>, active: seq<nat>)
    requires forall k :: 0 <= k < |active| ==> active[k] < |ps|
    ensures
      var q := Qualifiers(ps, active);
      var vals := LowsAt(ps, q);
      var b := Leaders(q, vals, CompareLowHands, |q|).0;
      var w := LowSeats(ps, active);
      && (w == [] <==> q == [])
      && (q != [] ==>
            && 0 <= b < |q|
            && (forall j :: 0 <= j < |q| ==> !ListGreater(vals[b].values, vals[j].values))
            && (forall i :: 0 <= i < |w| ==> ps[w[i]].low.value.values == vals[b].values)
            && (forall j :: 0 <= j < |q| && vals[j].values == vals[b].values ==> q[j] in w))
  {
    var q := Qualifiers(ps, active);
    var vals := LowsAt(ps, q);
    LeadersAmongSeats(q, vals, CompareLowHands, |q|);
    if q != [] {
      LowLeadersBest(q, vals);
      var b := Leaders(q, vals, CompareLowHands, |q|).0;
      var w := LowSeats(ps, active);
      forall i | 0 <= i < |w| ensures ps[w[i]].low.value.values == vals[b].values {
        assert HoldsLow(q, vals, vals[b].values, w[i]);
        var k :| 0 <= k < |q| && w[i] == q[k] && vals[k].values == vals[b].values;
      }
    }
  }

  /** The seats among `active` whose low qualifies keep the order of `active`. */
  lemma {:induction false} QualifiersIncreasing(ps: seq<Player>, active: seq<nat>)
    requires forall k :: 0 <= k < |active| ==> active[k] < |ps|
    requires Increasing(active)
    ensures Increasing(Qualifiers(ps, active))
    ensures |active| >= 1 ==> forall k :: 0 <= k < |Qualifiers(ps, active)| ==> Qualifiers(ps, active)[k] <= active[|active| - 1]
  {
    var n := |active|;
    if n > 1 {
      QualifiersIncreasing(ps, active[..n - 1]);
    }
  }

  // ---------------------------------------------------------------------------
  // determine_winners: the payout entries of a split pot
  // ---------------------------------------------------------------------------

  /** The sum of the amounts of the payout entries. */
  function Paid(r: seq<Payout>): int
  {
    if r == [] then 0 else Paid(r[..|r| - 1]) + r[|r| - 1].amount
  }

  /** The seats of the payout entries, in order. */
  function PayoutSeats(r: seq<Payout>): (s: seq<nat>)
    ensures |s| == |r| && forall k :: 0 <= k < |r| ==> s[k] == r[k].seat
  {
    seq(|r|, k requires 0 <= k < |r| => r[k].seat)
  }

  /** The names of the low winners' lows. */
  function LowNames(ps: seq<Player>, seats: seq<nat>): (r: seq<Option<string>>)
    ensures |r| == |seats|
    ensures forall k :: 0 <= k < |seats| && seats[k] < |ps| && ps[seats[k]].low.Some? ==> r[k] == Some(ps[seats[k]].low.value.name)
  {
    seq(|seats|, k requires 0 <= k < |seats| =>
      if seats[k] < |ps| && ps[seats[k]].low.Some? then Some(ps[seats[k]].low.value.name) else None)
  }

  /** The first entry that pays `seat` a high half, if any (`r['player'] == player and r['win_type'] == 'high'`). */
  function FirstHigh(r: seq<Payout>, seat: nat): (k: Option<nat>)
    ensures k.Some? ==> k.value < |r| && r[k.value].seat == seat && r[k.value].kind == High
    ensures k.None? ==> forall i :: 0 <= i < |r| ==> !(r[i].seat == seat && r[i].kind == High)
  {
    if r == [] then None
    else if r[0].seat == seat && r[0].kind == High then Some(0)
    else
      match FirstHigh(r[1..], seat)
      case None => None
      case Some(k) => Some(k + 1)
  }

  /** The search loop's answer: `k` is the first entry paying `seat` a high half, or past the end when none does. */
  lemma {:induction false} FirstHighAt(r: seq<Payout>, seat: nat, k: nat)
    requires k <= |r| && forall j :: 0 <= j < k ==> !(r[j].seat == seat && r[j].kind == High)
    requires k < |r| ==> r[k].seat == seat && r[k].kind == High
    ensures FirstHigh(r, seat) == if k < |r| then Some(k) else None
  {
    if r != [] && k > 0 {
      FirstHighAt(r[1..], seat, k - 1);
    }
  }

  /** One low winner's share: added to that seat's high entry, which becomes a scoop, or else a new low entry. */
  function MergeLow(r: seq<Payout>, seat: nat, amount: int, name: Option<string>): seq<Payout>
  {
    match FirstHigh(r, seat)
    case Some(k) => r[k := r[k].(amount := r[k].amount + amount, kind := Scoop)]
    case None => r + [Payout(seat, amount, name, LowWin)]
  }

  /** The low winners' shares merged in, in order, for the first `n` of them. */
  function MergeLows(r: seq<Payout>, lows: seq<nat>, amounts: seq<int>, names: seq<Option<string>>, n: nat): seq<Payout>
    requires |lows| == |amounts| == |names| && n <= |lows|
  {
    if n == 0 then r
    else MergeLow(MergeLows(r, lows, amounts, names, n - 1), lows[n - 1], amounts[n - 1], names[n - 1])
  }

  /** The high half of a Hi-Lo pot: `pot // 2`, rounded down. */
  function HighHalf(pot: int): int
  {
    pot / 2
  }

  /** The low half of a Hi-Lo pot: the rest, so an odd chip goes low. */
  function LowHalf(pot: int): int
  {
    pot - HighHalf(pot)
  }

  /** The entries of a Hi-Lo split: half the pot, rounded down, to the best high hands, the rest to the best lows. */
  function HiLoPayouts(ps: seq<Player>, high: seq<nat>, lows: seq<nat>, pot: int): seq<Payout>
    requires |high| >= 1 && |lows| >= 1
  {
    var entries := SplitPayouts(high, Shares(HighHalf(pot), |high|), HandNames(ps, high), High);
    MergeLows(entries, lows, Shares(LowHalf(pot), |lows|), LowNames(ps, lows), |lows|)
  }

  lemma {:induction false} PaidSplit(w: seq<nat>, amounts: seq<int>, names: seq<Option<string>>, kind: WinKind)
    requires |w| == |amounts| == |names|
    ensures Paid(SplitPayouts(w, amounts, names, kind)) == Total(amounts)
  {
    if w != [] {
      var n := |w|;
      PaidSplit(w[..n - 1], amounts[..n - 1], names[..n - 1], kind);
      assert SplitPayouts(w, amounts, names, kind)[..n - 1] == SplitPayouts(w[..n - 1], amounts[..n - 1], names[..n - 1], kind);
    }
  }

  lemma {:induction false} PaidUpdate(r: seq<Payout>, k: nat, e: Payout)
    requires k < |r|
    ensures Paid(r[k := e]) == Paid(r) - r[k].amount + e.amount
  {
    var n := |r|;
    if k == n - 1 {
      assert r[k := e][..n - 1] == r[..n - 1];
    } else {
      assert r[k := e][..n - 1] == r[..n - 1][k := e];
      PaidUpdate(r[..n - 1], k, e);
    }
  }

  /** Merging a low share adds exactly that share to what the entries pay. */
  lemma PaidMergeLow(r: seq<Payout>, seat: nat, amount: int, name: Option<string>)
    ensures Paid(MergeLow(r, seat, amount, name)) == Paid(r) + amount
  {
    match FirstHigh(r, seat)
    case Some(k) =>
      PaidUpdate(r, k, r[k].(amount := r[k].amount + amount, kind := Scoop));
    case None =>
      assert (r + [Payout(seat, amount, name, LowWin)])[..|r|] == r;
  }

  lemma {:induction false} PaidMergeLows(r: seq<Payout>, lows: seq<nat>, amounts: seq<int>, names: seq<Option<string>>, n: nat)
    requires |lows| == |amounts| == |names| && n <= |lows|
    ensures Paid(MergeLows(r, lows, amounts, names, n)) == Paid(r) + Total(amounts[..n])
  {
    if n > 0 {
      PaidMergeLows(r, lows, amounts, names, n - 1);
      PaidMergeLow(MergeLows(r, lows, amounts, names, n - 1), lows[n - 1], amounts[n - 1], names[n - 1]);
      TotalPrefixStep(amounts, n);
    }
  }

  /** The sum of a prefix one longer adds the next amount. */
  lemma TotalPrefixStep(s: seq<int>, n: nat)
    requires 0 < n <= |s|
    ensures Total(s[..n]) == Total(s[..n - 1]) + s[n - 1]
  {
    assert s[..n][..n - 1] == s[..n - 1];
  }

  /**
   * Every entry says truly how its seat won: `High` for a best high hand
   * without the best low, `Scoop` for a seat with both, `LowWin` for a best
   * low without the best high hand.
   */
  ghost predicate Classified(r: seq<Payout>, high: seq<nat>, lows: seq<nat>)
  {
    forall k :: 0 <= k < |r| ==>
      || (r[k].kind == High && r[k].seat in high && r[k].seat !in lows)
      || (r[k].kind == Scoop && r[k].seat in high && r[k].seat in lows)
      || (r[k].kind == LowWin && r[k].seat !in high && r[k].seat in lows)
  }

  /** Every winning seat has exactly one entry. */
  ghost predicate OneEntryEach(r: seq<Payout>, seats: seq<nat>)
  {
    && (forall k, l :: 0 <= k < l < |r| ==> r[k].seat != r[l].seat)
    && (forall i :: 0 <= i < |seats| ==> seats[i] in PayoutSeats(r))
  }

  lemma MergeLowStep(r: seq<Payout>, high: seq<nat>, done: seq<nat>, seat: nat, amount: int, name: Option<string>)
    requires Classified(r, high, done) && OneEntryEach(r, high + done) && seat !in done
    ensures Classified(MergeLow(r, seat, amount, name), high, done + [seat])
    ensures OneEntryEach(MergeLow(r, seat, amount, name), high + done + [seat])
  {
    var r' := MergeLow(r, seat, amount, name);
    assert forall x :: x in done + [seat] <==> x in done || x == seat;
    assert forall x :: x in high + done + [seat] <==> x in high + done || x == seat;
    match FirstHigh(r, seat)
    case Some(k) =>
      assert r' == r[k := r[k].(amount := r[k].amount + amount, kind := Scoop)];
      assert r[k].seat in high;
      forall i | 0 <= i < |high + done + [seat]| ensures (high + done + [seat])[i] in PayoutSeats(r') {
        var x := (high + done + [seat])[i];
        if x == seat {
          assert PayoutSeats(r')[k] == seat;
        } else {
          assert x in high + done;
          var j :| 0 <= j < |r| && PayoutSeats(r)[j] == x;
          assert PayoutSeats(r')[j] == x;
        }
      }
    case None =>
      assert r' == r + [Payout(seat, amount, name, LowWin)];
      assert forall j :: 0 <= j < |r| ==> r[j].seat != seat;
      assert seat !in PayoutSeats(r);
      assert seat !in high by {
        assert forall i :: 0 <= i < |high| ==> high[i] == (high + done)[i];
      }
      forall i | 0 <= i < |high + done + [seat]| ensures (high + done + [seat])[i] in PayoutSeats(r') {
        var x := (high + done + [seat])[i];
        if x == seat {
          assert PayoutSeats(r')[|r|] == seat;
        } else {
          assert x in high + done;
          var j :| 0 <= j < |r| && PayoutSeats(r)[j] == x;
          assert PayoutSeats(r')[j] == x;
        }
      }
  }

  lemma {:induction false} MergeLowsClassified(r: seq<Payout>, high: seq<nat>, lows: seq<nat>, amounts: seq<int>, names: seq<Option<string>>, n: nat)
    requires |lows| == |amounts| == |names| && n <= |lows| && Increasing(lows)
    requires Classified(r, high, []) && OneEntryEach(r, high)
    ensures Classified(MergeLows(r, lows, amounts, names, n), high, lows[..n])
    ensures OneEntryEach(MergeLows(r, lows, amounts, names, n), high + lows[..n])
  {
    if n == 0 {
      assert lows[..0] == [] && high + lows[..0] == high;
    } else {
      MergeLowsClassified(r, high, lows, amounts, names, n - 1);
      var done := lows[..n - 1];
      assert lows[n - 1] !in done;
      MergeLowStep(MergeLows(r, lows, amounts, names, n - 1), high, done, lows[n - 1], amounts[n - 1], names[n - 1]);
      assert done + [lows[n - 1]] == lows[..n];
      assert high + done + [lows[n - 1]] == high + lows[..n];
    }
  }

  /** A single split pays out exactly the amount split. */
  lemma SplitPaysOut(w: seq<nat>, total: int, names: seq<Option<string>>, kind: WinKind)
    requires |w| >= 1 && |names| == |w|
    ensures Paid(SplitPayouts(w, Shares(total, |w|), names, kind)) == total
  {
    PaidSplit(w, Shares(total, |w|), names, kind);
    SharesSplitPot(total, |w|);
  }

  /** The high entries of a split name each winning seat once, as a high win. */
  lemma HighEntries(high: seq<nat>, amounts: seq<int>, names: seq<Option<string>>)
    requires |high| == |amounts| == |names| && Increasing(high)
    ensures Classified(SplitPayouts(high, amounts, names, High), high, [])
    ensures OneEntryEach(SplitPayouts(high, amounts, names, High), high)
  {
    var entries := SplitPayouts(high, amounts, names, High);
    forall i | 0 <= i < |high| ensures high[i] in PayoutSeats(entries) {
      assert PayoutSeats(entries)[i] == high[i];
    }
  }

  lemma HiLoPaid(ps: seq<Player>, high: seq<nat>, lows: seq<nat>, pot: int)
    requires |high| >= 1 && |lows| >= 1
    ensures Paid(HiLoPayouts(ps, high, lows, pot)) == pot
  {
    var hp := HighHalf(pot);
    var amounts := Shares(LowHalf(pot), |lows|);
    var names := LowNames(ps, lows);
    var entries := SplitPayouts(high, Shares(hp, |high|), HandNames(ps, high), High);
    assert HiLoPayouts(ps, high, lows, pot) == MergeLows(entries, lows, amounts, names, |lows|);
    SplitPaysOut(high, hp, HandNames(ps, high), High);
    LowHalfPaid(entries, lows, LowHalf(pot), names);
  }

  /** Merging the low half into the high entries adds exactly the low half. */
  lemma LowHalfPaid(entries: seq<Payout>, lows: seq<nat>, lowPot: int, names: seq<Option<string>>)
    requires |lows| >= 1 && |names| == |lows|
    ensures Paid(MergeLows(entries, lows, Shares(lowPot, |lows|), names, |lows|)) == Paid(entries) + lowPot
  {
    var k := |lows|;
    PaidMergeLows(entries, lows, Shares(lowPot, k), names, k);
    SharesAll(lowPot, k);
  }

  /**
   * The Hi-Lo split pays out exactly the pot; every seat holding the best
   * high hand or the best low has exactly one entry, and its kind says
   * truly whether it won the high half, the low half or both (a scoop).
   */
  lemma HiLoPayoutsFacts(ps: seq<Player>, high: seq<nat>, lows: seq<nat>, pot: int)
    requires |high| >= 1 && |lows| >= 1 && Increasing(high) && Increasing(lows)
    ensures Paid(HiLoPayouts(ps, high, lows, pot)) == pot
    ensures Classified(HiLoPayouts(ps, high, lows, pot), high, lows)
    ensures OneEntryEach(HiLoPayouts(ps, high, lows, pot), high + lows)
  {
    HiLoPaid(ps, high, lows, pot);
    HiLoClassified(ps, high, lows, pot);
  }

  lemma HiLoClassified(ps: seq<Player>, high: seq<nat>, lows: seq<nat>, pot: int)
    requires |high| >= 1 && |lows| >= 1 && Increasing(high) && Increasing(lows)
    ensures Classified(HiLoPayouts(ps, high, lows, pot), high, lows)
    ensures OneEntryEach(HiLoPayouts(ps, high, lows, pot), high + lows)
  {
    var hp := HighHalf(pot);
    var amounts := Shares(LowHalf(pot), |lows|);
    var names := LowNames(ps, lows);
    var entries := SplitPayouts(high, Shares(hp, |high|), HandNames(ps, high), High);
    assert HiLoPayouts(ps, high, lows, pot) == MergeLows(entries, lows, amounts, names, |lows|);
    HighEntries(high, Shares(hp, |high|), HandNames(ps, high));
    MergeLowsClassified(entries, high, lows, amounts, names, |lows|);
    assert lows[..|lows|] == lows;
  }

  /**
   * The `win_type` of the entries when the best high hands take the whole
   * pot: `high` (noted as a scoop in the Hi-Lo mode) in the
   * `game_classes.py` override, none in the `app.py` copy, which pays
   * through the base `determine_winners`.
   */
  function HighOnlyKind(hiLo: bool, labels: bool): (k: WinKind)
    ensures k == Unlabelled <==> !labels
    ensures labels ==> (k == HighScoops <==> hiLo)
  {
    if !labels then Unlabelled else if hiLo then HighScoops else High
  }

  /** The `win_type` of a lone player's entry: `fold` in the override, none in the base `determine_winners`. */
  function LoneKind(labels: bool): (k: WinKind)
    ensures k == Unlabelled <==> !labels
  {
    if labels then FoldWin else Unlabelled
  }

  /**
   * What the showdown of `determine_winners` pays, over the hands `shown`:
   * without a qualifying low (or outside the Hi-Lo mode) the best high
   * hands share the pot; otherwise they share half of it, rounded down,
   * the best lows share the rest, and every entry names its seat once and
   * says truly which halves it won.
   */
  ghost predicate ShowdownPaid(shown: seq<Player>, active: seq<nat>, pot: int, hiLo: bool, labels: bool, after: seq<Player>, payouts: seq<Payout>)
  {
    && |active| >= 1
    && (forall k :: 0 <= k < |active| ==> active[k] < |shown| && shown[active[k]].hand.Some?)
    && var high := BestSeats(shown, active);
    && var lows := if hiLo then LowSeats(shown, active) else [];
    && (lows == [] ==>
          && after == Credit(shown, high, Shares(pot, |high|))
          && payouts == SplitPayouts(high, Shares(pot, |high|), HandNames(shown, high), HighOnlyKind(hiLo, labels)))
    && (lows != [] ==>
          && after == Credit(Credit(shown, high, Shares(HighHalf(pot), |high|)), lows, Shares(LowHalf(pot), |lows|))
          && payouts == HiLoPayouts(shown, high, lows, pot)
          && Classified(payouts, high, lows) && OneEntryEach(payouts, high + lows))
  }

  // ---------------------------------------------------------------------------
  // advance_phase: the spec of one street
  // ---------------------------------------------------------------------------

  /**
   * `advance_phase` from third to sixth street once the round is complete:
   * the bets cleared, one card to every player still in the hand (face up,
   * or face down on the way to seventh street), the next phase, and the
   * betting opened left of the dealer. The second component is the
   * (seat, card) pairs dealt, in deal order.
   */
  function NextStreet(s: TableState): (TableState, seq<(nat, Card)>)
    requires |s.players| >= 1 && StudStreet(s.phase).Some? && Takers(s.players, |s.players|) <= |s.deck|
  {
    var (u, dealt) := DealtStreet(s);
    (OpenRound(u), dealt)
  }

  /** The street of `NextStreet` before the betting opens: bets cleared, the cards dealt, the next phase. */
  function DealtStreet(s: TableState): (r: (TableState, seq<(nat, Card)>))
    requires |s.players| >= 1 && StudStreet(s.phase).Some? && Takers(s.players, |s.players|) <= |s.deck|
    ensures |r.0.players| == |s.players|
  {
    var s1 := NewStreet(s);
    var (slot, next) := StudStreet(s.phase).value;
    TakersAgree(s1.players, s.players, |s.players|);
    var d := DealPass(s1.players, s1.deck, slot, |s1.players|);
    (s1.(players := d.0, deck := d.1, phase := next), d.2)
  }

  /**
   * A street keeps the table seated and every chip where it was, clears
   * every bet, folds nobody, takes exactly one card off the top of the deck
   * per player still in the hand (no (seat, card) pair twice), and brings
   * every such player to the card counts of the next phase.
   */
  lemma NextStreetFacts(s: TableState)
    requires Seated(s) && StudStreet(s.phase).Some? && Takers(s.players, |s.players|) <= |s.deck|
    ensures
      var (r, dealt) := NextStreet(s);
      var (slot, next) := StudStreet(s.phase).value;
      && Seated(r) && |r.players| == |s.players| && r.phase == next
      && r.pot == s.pot && TotalChips(r.players) == TotalChips(s.players)
      && r.currentBet == 0 && (forall j :: 0 <= j < |s.players| ==> r.players[j].bet == 0)
      && (forall j :: 0 <= j < |s.players| ==> r.players[j].folded == s.players[j].folded && r.players[j].allIn == s.players[j].allIn)
      && |dealt| == Takers(s.players, |s.players|) && r.deck == s.deck[..|s.deck| - |dealt|]
      && NoRepeats(dealt)
      && (DealtFor(s.players, s.phase) ==> DealtFor(r.players, next))
  {
    DealtStreetPlayers(s);
    DealtStreetCards(s);
    OpenRoundFacts(DealtStreet(s).0);
  }

  /** `NextStreetFacts` before the betting opens, for the players: only bets and cards change. */
  lemma DealtStreetPlayers(s: TableState)
    requires Seated(s) && StudStreet(s.phase).Some? && Takers(s.players, |s.players|) <= |s.deck|
    ensures
      var u := DealtStreet(s).0;
      && Seated(u) && u.phase == StudStreet(s.phase).value.1
      && u.pot == s.pot && TotalChips(u.players) == TotalChips(s.players)
      && u.currentBet == 0 && (forall j :: 0 <= j < |s.players| ==> u.players[j].bet == 0)
      && (forall j :: 0 <= j < |s.players| ==> u.players[j].folded == s.players[j].folded && u.players[j].allIn == s.players[j].allIn)
  {
    var n := |s.players|;
    var s1 := NewStreet(s);
    var slot := StudStreet(s.phase).value.0;
    assert Seated(s1) && TotalChips(s1.players) == TotalChips(s.players) by {
      NewStreetFacts(s);
    }
    assert Takers(s1.players, n) == Takers(s.players, n) by {
      TakersAgree(s1.players, s.players, n);
    }
    var d := DealPass(s1.players, s1.deck, slot, n);
    assert forall j :: 0 <= j < n ==> CardsOnly(s1.players[j], d.0[j]) by {
      DealPassOnlyCards(s1.players, s1.deck, slot, n);
    }
    TotalChipsAgree(d.0, s1.players);
  }

  /** `NextStreetFacts` before the betting opens, for the cards: one to each player still in, off the top of the deck. */
  lemma DealtStreetCards(s: TableState)
    requires Seated(s) && StudStreet(s.phase).Some? && Takers(s.players, |s.players|) <= |s.deck|
    ensures
      var (u, dealt) := DealtStreet(s);
      && |dealt| == Takers(s.players, |s.players|) && u.deck == s.deck[..|s.deck| - |dealt|]
      && NoRepeats(dealt)
      && (DealtFor(s.players, s.phase) ==> DealtFor(u.players, StudStreet(s.phase).value.1))
  {
    var n := |s.players|;
    var s1 := NewStreet(s);
    var (slot, next) := StudStreet(s.phase).value;
    assert Takers(s1.players, n) == Takers(s.players, n) by {
      NewStreetFacts(s);
      TakersAgree(s1.players, s.players, n);
    }
    DealPassDeck(s1.players, s1.deck, slot, n);
    DealPassNoRepeats(s1.players, s1.deck, slot, n);
    if DealtFor(s.players, s.phase) {
      assert DealtFor(s1.players, s.phase);
      StreetDealsOne(s1.players, s1.deck, s.phase, slot, next);
    }
  }

  // ---------------------------------------------------------------------------
  // advance_phase: one deck for every street
  // ---------------------------------------------------------------------------

  /**
   * The streets from `s` on, `k` of them, dealt back to back: `None` once a
   * street is due and the deck holds fewer cards than there are players
   * still in the hand (where `_deal_street_cards` pops an empty deck), or
   * once there is no street left to deal.
   */
  ghost function DealStreets(s: TableState, k: nat): Option<TableState>
    decreases k
  {
    if k == 0 then Some(s)
    else if |s.players| == 0 || StudStreet(s.phase).None? || Takers(s.players, |s.players|) > |s.deck| then None
    else DealStreets(NextStreet(s).0, k - 1)
  }

  /** A street that can be dealt is dealt, and the rest follow from there. */
  lemma DealStreetsStep(s: TableState, k: nat)
    requires k > 0 && |s.players| >= 1 && StudStreet(s.phase).Some? && Takers(s.players, |s.players|) <= |s.deck|
    ensures DealStreets(s, k) == DealStreets(NextStreet(s).0, k - 1)
  {
  }

  /** A street with fewer cards left than players still in stops the run. */
  lemma DealStreetsShort(s: TableState, k: nat)
    requires k > 0 && Takers(s.players, |s.players|) > |s.deck|
    ensures DealStreets(s, k) == None
  {
  }

  /** The stud cards a player holds, down and up. */
  function CardsHeld(p: Player): nat
  {
    |p.down| + |p.up|
  }

  /** The stud cards all the players hold. */
  function Held(ps: seq<Player>): nat
  {
    if ps == [] then 0 else Held(ps[..|ps| - 1]) + CardsHeld(ps[|ps| - 1])
  }

  /** How many stud cards `phase` has dealt each player still in the hand. */
  function PhaseCards(phase: Phase): nat
  {
    CardCounts(phase).0 + CardCounts(phase).1
  }

  /**
   * Every stud card in play comes from one 52-card deck: what the players
   * hold and what is left add up to 52, and nobody holds more than the
   * phase has dealt.
   */
  ghost predicate OneDeck(s: TableState)
  {
    && Held(s.players) + |s.deck| == 52
    && forall j :: 0 <= j < |s.players| ==> CardsHeld(s.players[j]) <= PhaseCards(s.phase)
  }

  /** Replacing one player changes the cards held by the difference. */
  lemma {:induction false} HeldUpdate(ps: seq<Player>, i: nat, q: Player)
    requires i < |ps|
    ensures Held(ps[i := q]) == Held(ps) - CardsHeld(ps[i]) + CardsHeld(q)
  {
    var n := |ps|;
    if i == n - 1 {
      assert ps[i := q][..n - 1] == ps[..n - 1];
    } else {
      assert ps[i := q][..n - 1] == ps[..n - 1][i := q];
      HeldUpdate(ps[..n - 1], i, q);
    }
  }

  /** Tables whose players hold alike hold as many cards. */
  lemma {:induction false} HeldAgree(ps: seq<Player>, qs: seq<Player>)
    requires |ps| == |qs| && forall j :: 0 <= j < |ps| ==> CardsHeld(ps[j]) == CardsHeld(qs[j])
    ensures Held(ps) == Held(qs)
  {
    if ps != [] {
      HeldAgree(ps[..|ps| - 1], qs[..|qs| - 1]);
    }
  }

  /** Players holding at most `c` cards each hold at most `c` per player. */
  lemma {:induction false} HeldBound(ps: seq<Player>, c: nat)
    requires forall j :: 0 <= j < |ps| ==> CardsHeld(ps[j]) <= c
    ensures Held(ps) <= |ps| * c
  {
    if ps != [] {
      var n := |ps|;
      HeldBound(ps[..n - 1], c);
      assert (n - 1) * c + c == n * c;
    }
  }

  /** Players holding exactly three cards each hold three per player. */
  lemma {:induction false} HeldThree(ps: seq<Player>)
    requires forall j :: 0 <= j < |ps| ==> CardsHeld(ps[j]) == 3
    ensures Held(ps) == 3 * |ps|
  {
    if ps != [] {
      HeldThree(ps[..|ps| - 1]);
    }
  }

  /** When nobody has folded, every seat takes a card. */
  lemma {:induction false} TakersAllIn(ps: seq<Player>, n: nat)
    requires n <= |ps| && forall j :: 0 <= j < |ps| ==> !ps[j].folded
    ensures Takers(ps, n) == n
  {
    if n > 0 {
      TakersAllIn(ps, n - 1);
    }
  }

  /** A stud card adds one to what its player holds. */
  lemma GiveHeld(p: Player, c: Card, slot: Slot)
    requires slot != Hole
    ensures CardsHeld(Give(p, c, slot)) == CardsHeld(p) + 1
  {
  }

  /** A dealing pass of stud cards moves cards from the deck into the hands and loses none. */
  lemma {:induction false} DealPassHeld(ps: seq<Player>, deck: seq<Card>, slot: Slot, n: nat)
    requires slot != Hole && n <= |ps| && Takers(ps, n) <= |deck|
    ensures Held(DealPass(ps, deck, slot, n).0) + |DealPass(ps, deck, slot, n).1| == Held(ps) + |deck|
  {
    if n > 0 {
      DealPassHeld(ps, deck, slot, n - 1);
      var r := DealPass(ps, deck, slot, n - 1);
      if !ps[n - 1].folded {
        TakersGrow(ps, n - 1, n);
        var card := r.1[|r.1| - 1];
        var q := Give(ps[n - 1], card, slot);
        DealPassAhead(ps, deck, slot, n - 1);
        GiveHeld(ps[n - 1], card, slot);
        HeldUpdate(r.0, n - 1, q);
      }
    }
  }

  /** A dealing pass gives each seat at most one card. */
  lemma DealPassHeldEach(ps: seq<Player>, deck: seq<Card>, slot: Slot, n: nat, j: nat)
    requires slot != Hole && n <= |ps| && Takers(ps, n) <= |deck| && j < |ps|
    ensures CardsHeld(DealPass(ps, deck, slot, n).0[j]) <= CardsHeld(ps[j]) + 1
  {
    if j < n && !ps[j].folded {
      DealPassFacts(ps, deck, slot, n, j);
      GiveHeld(ps[j], deck[|deck| - 1 - Takers(ps, j)], slot);
    } else {
      DealPassSkips(ps, deck, slot, n);
    }
  }

  /** The street before the betting opens keeps every stud card in one deck. */
  lemma DealtStreetOneDeck(s: TableState)
    requires |s.players| >= 1 && StudStreet(s.phase).Some? && Takers(s.players, |s.players|) <= |s.deck| && OneDeck(s)
    ensures OneDeck(DealtStreet(s).0)
  {
    var n := |s.players|;
    var s1 := NewStreet(s);
    var (slot, next) := StudStreet(s.phase).value;
    StreetsLeftNext(s.phase);
    HeldAgree(s1.players, s.players);
    TakersAgree(s1.players, s.players, n);
    DealPassHeld(s1.players, s1.deck, slot, n);
    forall j | 0 <= j < n
      ensures CardsHeld(DealPass(s1.players, s1.deck, slot, n).0[j]) <= PhaseCards(next)
    {
      DealPassHeldEach(s1.players, s1.deck, slot, n, j);
    }
  }

  /** A street keeps every stud card in one deck, one card more for each player still in. */
  lemma StreetKeepsOneDeck(s: TableState)
    requires Seated(s) && StudStreet(s.phase).Some? && Takers(s.players, |s.players|) <= |s.deck| && OneDeck(s)
    ensures OneDeck(NextStreet(s).0)
  {
    DealtStreetOneDeck(s);
    DealtStreetPlayers(s);
    OpenRoundFacts(DealtStreet(s).0);
  }

  /** The part of `NextStreetFacts` a run of streets needs: still seated, the next phase, the same seats folded. */
  lemma NextStreetSeated(s: TableState)
    requires Seated(s) && StudStreet(s.phase).Some? && Takers(s.players, |s.players|) <= |s.deck|
    ensures
      var r := NextStreet(s).0;
      && Seated(r) && |r.players| == |s.players| && r.phase == StudStreet(s.phase).value.1
      && |r.deck| == |s.deck| - Takers(s.players, |s.players|)
      && forall j :: 0 <= j < |s.players| ==> r.players[j].folded == s.players[j].folded
  {
    NextStreetFacts(s);
  }

  /** With at most seven seats a street is never short of cards: 7 * 6 of the 52 are out at most. */
  lemma SevenSeatsStreetDealable(s: TableState)
    requires |s.players| <= 7 && StudStreet(s.phase).Some? && OneDeck(s)
    ensures Takers(s.players, |s.players|) <= |s.deck|
  {
    assert PhaseCards(s.phase) <= 6;
    HeldBound(s.players, 6);
  }

  /** How many streets are still to be dealt after `phase`. */
  function StreetsLeft(phase: Phase): (k: nat)
    ensures k > 0 <==> StudStreet(phase).Some?
  {
    match phase
    case ThirdStreet => 4
    case FourthStreet => 3
    case FifthStreet => 2
    case SixthStreet => 1
    case _ => 0
  }

  /** Each street brings the hand one street nearer seventh street and one card nearer its seven. */
  lemma StreetsLeftNext(phase: Phase)
    requires StudStreet(phase).Some?
    ensures StreetsLeft(StudStreet(phase).value.1) + 1 == StreetsLeft(phase)
    ensures PhaseCards(StudStreet(phase).value.1) == PhaseCards(phase) + 1
  {
  }

  /** With at most seven seats one street is dealt from one deck, and the next table is as good. */
  lemma SevenSeatsStreet(s: TableState)
    requires Seated(s) && |s.players| <= 7 && OneDeck(s) && StudStreet(s.phase).Some?
    ensures Takers(s.players, |s.players|) <= |s.deck|
    ensures
      var r := NextStreet(s).0;
      && Seated(r) && |r.players| == |s.players| && OneDeck(r)
      && StreetsLeft(r.phase) + 1 == StreetsLeft(s.phase)
  {
    SevenSeatsStreetDealable(s);
    NextStreetSeated(s);
    StreetsLeftNext(s.phase);
    StreetKeepsOneDeck(s);
  }

  /** With at most seven seats and every card in one deck, the streets left in the hand can all be dealt. */
  lemma {:induction false} SevenSeatsDealStreets(s: TableState, k: nat)
    requires Seated(s) && |s.players| <= 7 && OneDeck(s)
    requires k <= StreetsLeft(s.phase)
    ensures DealStreets(s, k).Some?
    decreases k
  {
    if k > 0 {
      SevenSeatsStreet(s);
      DealStreetsStep(s, k);
      SevenSeatsDealStreets(NextStreet(s).0, k - 1);
    }
  }

  /** The opening of `_initialize_hand` from a full deck and empty hands: three cards each, all from that deck. */
  lemma OpeningOneDeck(s: TableState, ante: nat, bringIn: nat)
    requires Funded(s.players) && 1 <= |s.players| && 3 * |s.players| <= |s.deck| == 52 && s.phase == ThirdStreet
    requires forall j :: 0 <= j < |s.players| ==> s.players[j].down == [] && s.players[j].up == []
    ensures
      var o := StudOpening(s, ante, bringIn).0;
      && Seated(o) && |o.players| == |s.players| && o.phase == ThirdStreet && OneDeck(o)
      && Held(o.players) == 3 * |s.players|
      && forall j :: 0 <= j < |s.players| ==> o.players[j].folded == s.players[j].folded
  {
    var n := |s.players|;
    StudOpeningFacts(s, ante, bringIn);
    AntedAndDealtFacts(s, ante);
    var o := StudOpening(s, ante, bringIn).0;
    forall j | 0 <= j < n ensures CardsHeld(o.players[j]) == 3 {
    }
    ThreeEachOneDeck(o, n);
  }

  /** Three stud cards each, the rest of a full deck still to deal: one deck. */
  lemma ThreeEachOneDeck(o: TableState, n: nat)
    requires |o.players| == n && |o.deck| + 3 * n == 52 && o.phase == ThirdStreet
    requires forall j :: 0 <= j < n ==> CardsHeld(o.players[j]) == 3
    ensures OneDeck(o) && Held(o.players) == 3 * n
  {
    HeldThree(o.players);
  }

  /**
   * Seven seats are enough: a hand opened from a full deck with at most
   * seven players deals third to seventh street without running out of
   * cards, however many stay in.
   */
  lemma SevenSeatsDealEveryStreet(s: TableState, ante: nat, bringIn: nat)
    requires Funded(s.players) && 1 <= |s.players| <= 7 && |s.deck| == 52 && s.phase == ThirdStreet
    requires forall j :: 0 <= j < |s.players| ==> s.players[j].down == [] && s.players[j].up == []
    ensures DealStreets(StudOpening(s, ante, bringIn).0, 4).Some?
  {
    OpeningOneDeck(s, ante, bringIn);
    SevenSeatsDealStreets(StudOpening(s, ante, bringIn).0, 4);
  }

  /** `k` streets of `n` cards from `d` cards are one street and then `k - 1` more. */
  lemma PerStreet(d: nat, n: nat, k: nat)
    requires k > 0 && n <= d
    ensures (k - 1) * n + n == k * n
    ensures k * n <= d ==> (k - 1) * n <= d - n
  {
  }

  /** Fewer than `k` streets of `n` cards, with one street there: fewer than `k - 1` left after it. */
  lemma PerStreetShort(d: nat, n: nat, k: nat)
    requires k > 0 && n <= d < k * n
    ensures 1 < k && d - n < (k - 1) * n
  {
    assert (k - 1) * n + n == k * n;
  }

  /** Streets with nobody folded take one card per seat each, and nobody folds. */
  lemma {:induction false} AllInStreets(s: TableState, k: nat)
    requires Seated(s) && k <= StreetsLeft(s.phase) && k * |s.players| <= |s.deck|
    requires forall j :: 0 <= j < |s.players| ==> !s.players[j].folded
    ensures DealStreets(s, k).Some?
    ensures
      var h := DealStreets(s, k).value;
      && Seated(h) && |h.players| == |s.players| && StreetsLeft(h.phase) + k == StreetsLeft(s.phase)
      && |h.deck| + k * |s.players| == |s.deck|
      && forall j :: 0 <= j < |h.players| ==> !h.players[j].folded
    decreases k
  {
    if k > 0 {
      var n := |s.players|;
      TakersAllIn(s.players, n);
      NextStreetSeated(s);
      StreetsLeftNext(s.phase);
      PerStreet(|s.deck|, n, k);
      DealStreetsStep(s, k);
      AllInStreets(NextStreet(s).0, k - 1);
    }
  }

  /**
   * Streets with nobody folded run short exactly when the deck holds fewer
   * cards than one per seat per street: then some street finds the deck
   * short and the run stops there.
   */
  lemma {:induction false} AllInStreetsShort(s: TableState, k: nat)
    requires Seated(s) && 0 < k <= StreetsLeft(s.phase) && |s.deck| < k * |s.players|
    requires forall j :: 0 <= j < |s.players| ==> !s.players[j].folded
    ensures DealStreets(s, k) == None
    decreases k
  {
    var n := |s.players|;
    TakersAllIn(s.players, n);
    if n > |s.deck| {
      DealStreetsShort(s, k);
    } else {
      NextStreetSeated(s);
      StreetsLeftNext(s.phase);
      var r := NextStreet(s).0;
      PerStreetShort(|s.deck|, |r.players|, k);
      DealStreetsStep(s, k);
      AllInStreetsShort(r, k - 1);
    }
  }

  /**
   * As written, eight seats run the deck dry: when all eight players stay
   * in, third street takes 24 cards and fourth to sixth street 8 each,
   * which leaves 4 cards at sixth street for the 8 that seventh street pops.
   */
  lemma EightSeatsExhaustDeck(s: TableState, ante: nat, bringIn: nat)
    requires Funded(s.players) && |s.players| == 8 && |s.deck| == 52 && s.phase == ThirdStreet
    requires forall j :: 0 <= j < 8 ==> s.players[j].down == [] && s.players[j].up == [] && !s.players[j].folded
    ensures DealStreets(StudOpening(s, ante, bringIn).0, 3).Some?
    ensures
      var h := DealStreets(StudOpening(s, ante, bringIn).0, 3).value;
      h.phase == SixthStreet && |h.deck| == 4 && Takers(h.players, |h.players|) == 8
    ensures DealStreets(StudOpening(s, ante, bringIn).0, 4) == None
  {
    var o := StudOpening(s, ante, bringIn).0;
    OpeningOneDeck(s, ante, bringIn);
    AllInStreets(o, 3);
    var h := DealStreets(o, 3).value;
    TakersAllIn(h.players, 8);
    AllInStreetsShort(o, 4);
  }

  /** Scans that agree on their first `n` candidates agree on their leaders after `n` steps. */
  lemma {:induction false} LeadersSamePrefix<T>(seats: seq<nat>, vals: seq<T>, seats2: seq<nat>, vals2: seq<T>, cmp: (T, T) -> int, n: nat)
    requires |seats| == |vals| && |seats2| == |vals2| && n <= |seats| && n <= |seats2|
    requires forall k :: 0 <= k < n ==> seats[k] == seats2[k] && vals[k] == vals2[k]
    ensures Leaders(seats, vals, cmp, n) == Leaders(seats2, vals2, cmp, n)
  {
    if n > 0 {
      LeadersSamePrefix(seats, vals, seats2, vals2, cmp, n - 1);
    }
  }

  /** One more candidate for the scan: it leads alone when it beats the leader (or is the first), joins the leaders on a tie, and is passed over otherwise. */
  lemma LeadersExtend<T>(seats: seq<nat>, vals: seq<T>, x: nat, v: T, cmp: (T, T) -> int)
    requires |seats| == |vals|
    ensures
      var (b, w) := Leaders(seats, vals, cmp, |seats|);
      Leaders(seats + [x], vals + [v], cmp, |seats| + 1) ==
        if b == -1 || cmp(v, vals[b]) > 0 then (|seats|, [x])
        else if cmp(v, vals[b]) == 0 then (b, w + [x])
        else (b, w)
  {
    LeadersSamePrefix(seats + [x], vals + [v], seats, vals, cmp, |seats|);
  }

  /** One more seat of the low scan: the candidates grow by that seat exactly when its low qualifies. */
  lemma QualifiersStep(ps: seq<Player>, active: seq<nat>, i: nat)
    requires i < |active| && forall k :: 0 <= k < |active| ==> active[k] < |ps|
    ensures Qualifiers(ps, active[..i + 1]) ==
      Qualifiers(ps, active[..i]) + (if Qualifies(ps[active[i]]) then [active[i]] else [])
  {
    assert active[..i + 1][..i] == active[..i];
  }

  /** A qualifying seat added to the candidates adds its low to theirs. */
  lemma LowsAtAppend(ps: seq<Player>, q: seq<nat>, x: nat)
    requires forall k :: 0 <= k < |q| ==> q[k] < |ps| && ps[q[k]].low.Some? && ps[q[k]].low.value.qualifies
    requires x < |ps| && ps[x].low.Some? && ps[x].low.value.qualifies
    ensures LowsAt(ps, q + [x]) == LowsAt(ps, q) + [LowOf(ps[x].low.value)]
  {
    assert LowsAt(ps, q + [x]) == LowsAt(ps, q) + [LowOf(ps[x].low.value)];
  }

  /**
   * The low scan of `determine_winners` over the first `n` seats of
   * `active`: the best qualifying low so far and the seats holding it;
   * seats whose low does not qualify are passed over.
   */
  function LowTally(ps: seq<Player>, active: seq<nat>, n: nat): (Option<LowResult>, seq<nat>)
    requires n <= |active| && forall k :: 0 <= k < |active| ==> active[k] < |ps|
  {
    if n == 0 then (None, [])
    else
      var p := ps[active[n - 1]];
      if !(p.low.Some? && p.low.value.qualifies) then LowTally(ps, active, n - 1)
      else TallyStep(LowTally(ps, active, n - 1), active[n - 1], LowOf(p.low.value))
  }

  /** One qualifying low `l` of seat `x` met by the scan: it leads alone when it is better, joins on a tie, and is passed over otherwise. */
  function TallyStep(acc: (Option<LowResult>, seq<nat>), x: nat, l: LowResult): (Option<LowResult>, seq<nat>)
  {
    var (best, w) := acc;
    if best.None? || CompareLowHands(l, best.value) > 0 then (Some(l), [x])
    else if CompareLowHands(l, best.value) == 0 then (best, w + [x])
    else (best, w)
  }

  /** The generic leader scan over the candidates `q`, read as the tally reads it: the best low and its seats. */
  ghost function LowView(q: seq<nat>, vals: seq<LowResult>): (Option<LowResult>, seq<nat>)
    requires |q| == |vals|
  {
    var (b, w) := Leaders(q, vals, CompareLowHands, |q|);
    (if b == -1 then None else Some(vals[b]), w)
  }

  /** The tally over the first `n` seats is the generic leader scan over the qualifying ones among them. */
  ghost predicate TallyAgrees(ps: seq<Player>, active: seq<nat>, n: nat)
    requires n <= |active| && forall k :: 0 <= k < |active| ==> active[k] < |ps|
  {
    var q := Qualifiers(ps, active[..n]);
    LowTally(ps, active, n) == LowView(q, LowsAt(ps, q))
  }

  /** The scan is the generic leader scan over the qualifying seats only. */
  lemma {:induction false} LowTallyLeaders(ps: seq<Player>, active: seq<nat>, n: nat)
    requires n <= |active| && forall k :: 0 <= k < |active| ==> active[k] < |ps|
    ensures TallyAgrees(ps, active, n)
  {
    if n == 0 {
      assert active[..0] == [];
    } else {
      LowTallyLeaders(ps, active, n - 1);
      var p := ps[active[n - 1]];
      if p.low.Some? && p.low.value.qualifies {
        TallyQualifyingStep(ps, active, n);
      } else {
        TallySkipStep(ps, active, n);
      }
    }
  }

  /** A seat without a qualifying low moves neither the tally nor the leader scan. */
  lemma TallySkipStep(ps: seq<Player>, active: seq<nat>, n: nat)
    requires 1 <= n <= |active| && forall k :: 0 <= k < |active| ==> active[k] < |ps|
    requires !(ps[active[n - 1]].low.Some? && ps[active[n - 1]].low.value.qualifies)
    requires TallyAgrees(ps, active, n - 1)
    ensures TallyAgrees(ps, active, n)
  {
    QualifiersStep(ps, active, n - 1);
    assert Qualifiers(ps, active[..n]) == Qualifiers(ps, active[..n - 1]);
    assert LowTally(ps, active, n) == LowTally(ps, active, n - 1);
  }

  /** A qualifying seat moves the tally and the leader scan alike. */
  lemma TallyQualifyingStep(ps: seq<Player>, active: seq<nat>, n: nat)
    requires 1 <= n <= |active| && forall k :: 0 <= k < |active| ==> active[k] < |ps|
    requires ps[active[n - 1]].low.Some? && ps[active[n - 1]].low.value.qualifies
    requires TallyAgrees(ps, active, n - 1)
    ensures TallyAgrees(ps, active, n)
  {
    var q0 := Qualifiers(ps, active[..n - 1]);
    var vals0 := LowsAt(ps, q0);
    var x := active[n - 1];
    var l := LowOf(ps[x].low.value);
    assert Qualifiers(ps, active[..n]) == q0 + [x] by {
      QualifiersStep(ps, active, n - 1);
    }
    assert LowsAt(ps, q0 + [x]) == vals0 + [l] by {
      LowsAtAppend(ps, q0, x);
    }
    assert LowTally(ps, active, n) == TallyStep(LowView(q0, vals0), x, l);
    LeadersAsTally(q0, vals0, x, l);
  }

  /** The leader scan over lows moves as the tally does when one more candidate comes. */
  lemma LeadersAsTally(q0: seq<nat>, vals0: seq<LowResult>, x: nat, l: LowResult)
    requires |q0| == |vals0|
    ensures LowView(q0 + [x], vals0 + [l]) == TallyStep(LowView(q0, vals0), x, l)
  {
    LeadersExtend(q0, vals0, x, l, CompareLowHands);
    var b0 := Leaders(q0, vals0, CompareLowHands, |q0|).0;
    if b0 != -1 {
      assert (vals0 + [l])[b0] == vals0[b0];
    }
    assert (vals0 + [l])[|q0|] == l;
  }

  /** The players a new hand starts with hold no down or up cards. */
  lemma RemainingHoldNoCards(ps: seq<Player>, renumbers: bool)
    ensures forall i :: 0 <= i < |Remaining(ps, renumbers)| ==>
      Remaining(ps, renumbers)[i].down == [] && Remaining(ps, renumbers)[i].up == []
  {
    var cleared := Cleared(ps);
    KeptMembers(cleared);
    var kept := Kept(cleared);
    forall i | 0 <= i < |kept| ensures kept[i].down == [] && kept[i].up == [] {
      assert kept[i] in cleared;
    }
  }

  // ---------------------------------------------------------------------------
  // The game object
  // ---------------------------------------------------------------------------

  /** `StudFollowQueenGame`: the table, the forced bets, the mode, and the wild rank with its history. */
  class StudGame {
    const t: Table
    const ante: nat
    const bringIn: nat
    const hiLo: bool
    /** Whether payouts carry a `win_type`: the `game_classes.py` override of `determine_winners` labels them, the base one does not. */
    const labels: bool
    var wildRank: Rank
    var history: seq<WildChange>

    /**
     * `reset_game` and the players joining: Queens wild and no history.
     * The `game_classes.py` game renumbers the seats on each new hand and
     * labels its payouts; the `app.py` copy, which has no Hi-Lo, does
     * neither.
     */
    constructor (seated: seq<Player>, ante: nat, bringIn: nat, hiLo: bool, renumbers: bool, labels: bool)
      requires |seated| >= 1 && Funded(seated)
      requires hiLo ==> labels
      ensures fresh(t) && t.Valid() && t.renumbers == renumbers
      ensures this.ante == ante && this.bringIn == bringIn && this.hiLo == hiLo && this.labels == labels
      ensures t.State() == TableState(seated, 0, 0, ThirdStreet, 0, 0, None, false, [])
      ensures wildRank == Queen && history == []
    {
      t := new Table(seated, ThirdStreet, renumbers);
      this.ante := ante;
      this.bringIn := bringIn;
      this.hiLo := hiLo;
      this.labels := labels;
      wildRank := Queen;
      history := [];
    }

    /** The Queens of a batch, in deal order. */
    static method CollectQueens(dealt: seq<(nat, Card)>) returns (queens: seq<(nat, Card)>)
      ensures queens == QueensIn(dealt, |dealt|)
      ensures forall j :: 0 <= j < |queens| ==> queens[j] in dealt
    {
      queens := [];
      for i := 0 to |dealt|
        invariant queens == QueensIn(dealt, i)
      {
        if dealt[i].1.rank == Queen {
          queens := queens + [dealt[i]];
        }
      }
      assert dealt[..|dealt|] == dealt;
    }

    /** `_check_for_queens`: each face-up Queen of the batch makes the next card's rank wild, and is recorded. */
    method CheckForQueens(dealt: seq<(nat, Card)>)
      modifies this`wildRank, this`history
      ensures history == old(history) + QueenChanges(dealt, t.phase)
      ensures wildRank == WildAfter(old(wildRank), QueenChanges(dealt, t.phase))
    {
      var queens := CollectQueens(dealt);
      if queens == [] {
        return;
      }
      RecordQueens(dealt, queens);
    }

    /** One history entry per Queen of the batch; the wild rank becomes the one named last. */
    method RecordQueens(dealt: seq<(nat, Card)>, queens: seq<(nat, Card)>)
      requires forall j :: 0 <= j < |queens| ==> queens[j] in dealt
      modifies this`wildRank, this`history
      ensures history == old(history) + Changes(dealt, queens, t.phase, |queens|)
      ensures wildRank == WildAfter(old(wildRank), Changes(dealt, queens, t.phase, |queens|))
    {
      for k := 0 to |queens|
        invariant history == old(history) + Changes(dealt, queens, t.phase, k)
        invariant wildRank == WildAfter(old(wildRank), Changes(dealt, queens, t.phase, k))
      {
        var at := IndexOf(dealt, queens[k]);
        var next := if at < |dealt| - 1 then dealt[at + 1].1.rank else Queen;
        ChangesStep(dealt, queens, t.phase, k, old(history), old(wildRank));
        wildRank := next;
        history := history + [WildChange(t.phase, queens[k].1, queens[k].0, next)];
      }
    }

    /** `_determine_bring_in`. */
    method DetermineBringIn() returns (b: nat)
      ensures b == BringIn(t.players)
    {
      var lowest: Option<nat> := None;
      var lowestRank: Rank := 0;
      var lowestSuit := 0;
      for i := 0 to |t.players|
        invariant lowest == LowestDoor(t.players, i)
        invariant lowest.Some? ==>
          lowestRank == t.players[lowest.value].up[0].rank && lowestSuit == SuitOrder(t.players[lowest.value].up[0].suit)
      {
        var p := t.players[i];
        if !p.folded && |p.up| > 0 {
          var card := p.up[0];
          if lowest.None? || card.rank < lowestRank || (card.rank == lowestRank && SuitOrder(card.suit) < lowestSuit) {
            lowest, lowestRank, lowestSuit := Some(i), card.rank, SuitOrder(card.suit);
          }
        }
      }
      b := if lowest.Some? then lowest.value else 0;
    }

    /** `_post_bring_in`. */
    method PostBringIn(seat: nat)
      requires seat < |t.players|
      modifies t`players, t`pot, t`currentBet, t`lastRaiser
      ensures t.State() == BroughtIn(old(t.State()), seat, bringIn)
    {
      var p := t.players[seat];
      var a := Min(bringIn, p.chips);
      t.players := t.players[seat := p.(chips := p.chips - a, bet := a)];
      t.pot := t.pot + a;
      t.currentBet := a;
      t.lastRaiser := Some(seat);
    }

    /** The third-street deal of `_initialize_hand`: two down cards and one up card a seat, the up cards recorded. */
    method DealThirdStreet() returns (dealt: seq<(nat, Card)>)
      requires 3 * |t.players| <= |t.deck|
      modifies t`players, t`deck
      ensures (t.players, t.deck, dealt) == ThirdStreetDeal(old(t.players), old(t.deck), |old(t.players)|)
    {
      ghost var before, full := t.players, t.deck;
      dealt := [];
      for i := 0 to |t.players|
        invariant |t.players| == |before|
        invariant (t.players, t.deck, dealt) == ThirdStreetDeal(before, full, i)
      {
        ghost var m := |t.deck|;
        ghost var deck := t.deck;
        var p := t.players[i];
        var d1 := t.Pop();
        var d2 := t.Pop();
        p := p.(down := p.down + [d1, d2]);
        var u := t.Pop();
        p := p.(up := p.up + [u]);
        t.players := t.players[i := p];
        dealt := dealt + [(i, u)];
        assert d1 == deck[m - 1] && d2 == deck[m - 2] && u == deck[m - 3] && t.deck == deck[..m - 3];
      }
    }

    /** The first half of `_initialize_hand`: the antes and the third-street deal, with the up cards returned. */
    method AnteAndDeal() returns (dealt: seq<(nat, Card)>)
      requires Funded(t.players) && 3 * |t.players| <= |t.deck|
      modifies t`players, t`pot, t`deck
      ensures (t.State(), dealt) == AntedAndDealt(old(t.State()), ante)
    {
      ghost var s := t.State();
      t.PostAntes(ante);
      assert t.State() == AntesPosted(s, ante);
      dealt := DealThirdStreet();
    }

    /** `_initialize_hand` with the debug deal switched off. */
    method InitializeHand()
      requires Funded(t.players) && 1 <= |t.players| && 3 * |t.players| <= |t.deck|
      modifies t, this`wildRank, this`history
      ensures (t.State(), wildRank, history) == StudOpening(old(t.State()), ante, bringIn)
    {
      ghost var s := t.State();
      wildRank := Queen;
      history := [];
      var dealt := AnteAndDeal();
      ghost var c := t.State();
      assert Funded(c.players) by {
        AntedAndDealtFacts(s, ante);
      }
      assert t.phase == s.phase;
      CheckForQueens(dealt);
      ghost var changes := QueenChanges(dealt, s.phase);
      assert history == changes && wildRank == WildAfter(Queen, changes);
      var b := DetermineBringIn();
      assert Seated(BroughtIn(c, b, bringIn).(current := b)) by {
        BringInFacts(c, b, bringIn);
      }
      PostBringIn(b);
      ghost var o := BroughtIn(c, b, bringIn);
      t.current := b;
      t.SkipFoldedPlayers();
      assert t.State() == o.(current := Skip(o.players, b));
      assert StudOpening(s, ante, bringIn) == (t.State(), WildAfter(Queen, changes), changes);
    }

    /** `_deal_street_cards(1, face_up)`: one card to every player still in the hand, and the Queen check on face-up cards. */
    method DealStreetCards(faceUp: bool)
      requires Takers(t.players, |t.players|) <= |t.deck|
      modifies t`players, t`deck, this`wildRank, this`history
      ensures
        var d := DealPass(old(t.players), old(t.deck), if faceUp then Up else Down, |old(t.players)|);
        var changes := if faceUp then QueenChanges(d.2, t.phase) else [];
        && t.players == d.0 && t.deck == d.1
        && history == old(history) + changes && wildRank == WildAfter(old(wildRank), changes)
    {
      var dealt := t.Deal(if faceUp then Up else Down);
      if faceUp {
        CheckForQueens(dealt);
      }
    }

    /** `_evaluate_hands`: the best high hand with the wild ranks for every player still in, and the best low in Hi-Lo. */
    method EvaluateHands()
      requires Evaluable(t.players)
      modifies t`players
      ensures StudEvaluated(old(t.players), t.players, Wilds(wildRank), hiLo)
    {
      var wild := Wilds(wildRank);
      ghost var before := t.players;
      for i := 0 to |t.players|
        invariant |t.players| == |before|
        invariant forall j :: 0 <= j < i ==> StudEvaluatedSeat(before[j], t.players[j], wild, hiLo)
        invariant forall j :: i <= j < |t.players| ==> t.players[j] == before[j]
      {
        var p := t.players[i];
        if !p.folded {
          var cards := p.down + p.up;
          var best, bestCards := BestHandWithWilds(cards, wild, ExpansionCap);
          var low := p.low;
          if hiLo {
            var l := BestLowHandWithWilds(cards, wild);
            low := Some(l);
          }
          assert BestWild(best, cards, wild);
          assert StudEvaluatedSeat(p, p.(hand := Some(best), low := low), wild, hiLo);
          t.players := t.players[i := p.(hand := Some(best), low := low)];
        }
      }
    }

    /**
     * The street part of `advance_phase`: clear the bets, deal the street
     * (face up ones checked for Queens against the street being left), move
     * to the next street and open the betting.
     */
    method PlayNextStreet() returns (ghost dealt: seq<(nat, Card)>)
      requires t.Valid() && StudStreet(t.phase).Some?
      requires Takers(t.players, |t.players|) <= |t.deck|
      modifies t, this`wildRank, this`history
      ensures (t.State(), dealt) == NextStreet(old(t.State()))
      ensures
        var changes := if StudStreet(old(t.phase)).value.0 == Up then QueenChanges(dealt, old(t.phase)) else [];
        history == old(history) + changes && wildRank == WildAfter(old(wildRank), changes)
    {
      ghost var s0 := t.State();
      t.StartStreet();
      ghost var s1 := t.State();
      assert Seated(s1) by {
        NewStreetFacts(s0);
      }
      assert Takers(s1.players, |s1.players|) == Takers(s0.players, |s0.players|) by {
        NewStreetFacts(s0);
        TakersAgree(s1.players, s0.players, |s0.players|);
      }
      var (slot, next) := StudStreet(t.phase).value;
      ghost var d := DealPass(s1.players, s1.deck, slot, |s1.players|);
      assert Seated(s1.(players := d.0, deck := d.1, phase := next)) by {
        DealPassOnlyCards(s1.players, s1.deck, slot, |s1.players|);
      }
      DealStreetCards(slot == Up);
      t.phase := next;
      t.OpenBetting();
      dealt := d.2;
    }

    /** The seventh-street part of `advance_phase`: clear the bets, go to the showdown and evaluate the hands. */
    method PlayShowdown()
      requires t.Valid() && t.phase == SeventhStreet && Evaluable(t.players)
      modifies t`players, t`currentBet, t`roundComplete, t`phase
      ensures
        var s1 := NewStreet(old(t.State()));
        && StudEvaluated(s1.players, t.players, Wilds(wildRank), hiLo)
        && t.State() == s1.(players := t.players, phase := Showdown)
      ensures DealtFor(old(t.players), SeventhStreet) ==> DealtFor(t.players, Showdown)
    {
      ghost var s0 := t.State();
      t.StartStreet();
      assert Evaluable(t.players) by {
        NewStreetFacts(s0);
      }
      assert DealtFor(s0.players, SeventhStreet) ==> DealtFor(t.players, SeventhStreet) by {
        NewStreetFacts(s0);
      }
      t.phase := Showdown;
      EvaluateHands();
      if DealtFor(s0.players, SeventhStreet) {
        StudEvaluatedKeepsDealt(NewStreet(s0).players, t.players, Wilds(wildRank), hiLo);
      }
    }

    /**
     * `advance_phase`: once the betting round is complete, clear the bets
     * and deal the next street (checking face-up cards for Queens, with the
     * history recording the street being left), then open the betting; after
     * seventh street go to the showdown and evaluate every hand still in.
     * Players keep the card counts their phase calls for.
     */
    method AdvancePhase() returns (advanced: bool)
      requires t.Valid()
      requires StudStreet(t.phase).Some? ==> Takers(t.players, |t.players|) <= |t.deck|
      requires t.phase == SeventhStreet ==> Evaluable(t.players)
      modifies t, this`wildRank, this`history
      ensures advanced == old(t.roundComplete)
      ensures !advanced ==> t.State() == old(t.State()) && wildRank == old(wildRank) && history == old(history)
      ensures advanced && StudStreet(old(t.phase)).Some? ==>
        var (r, dealt) := NextStreet(old(t.State()));
        var changes := if StudStreet(old(t.phase)).value.0 == Up then QueenChanges(dealt, old(t.phase)) else [];
        && t.State() == r
        && history == old(history) + changes && wildRank == WildAfter(old(wildRank), changes)
      ensures advanced && old(t.phase) == SeventhStreet ==>
        var s1 := NewStreet(old(t.State()));
        && StudEvaluated(s1.players, t.players, Wilds(wildRank), hiLo)
        && t.State() == s1.(players := t.players, phase := Showdown)
        && wildRank == old(wildRank) && history == old(history)
      ensures advanced && old(t.phase) != SeventhStreet && StudStreet(old(t.phase)).None? ==>
        t.State() == OpenRound(NewStreet(old(t.State()))) && wildRank == old(wildRank) && history == old(history)
      ensures DealtFor(old(t.players), old(t.phase)) ==> DealtFor(t.players, t.phase)
    {
      ghost var s0 := t.State();
      if !t.roundComplete {
        return false;
      }
      if StudStreet(t.phase).Some? {
        ghost var dealt := PlayNextStreet();
        NextStreetFacts(s0);
      } else if t.phase == SeventhStreet {
        PlayShowdown();
      } else {
        t.StartStreet();
        assert Seated(t.State()) && t.players == NewStreet(s0).players by {
          NewStreetFacts(s0);
        }
        t.OpenBetting();
        assert DealtFor(s0.players, s0.phase) ==> DealtFor(t.players, t.phase) by {
          NewStreetFacts(s0);
        }
      }
      advanced := true;
    }

    /** The search of `determine_winners` for the entry paying `seat` a high half: its index, or `|r|` when there is none. */
    method FindHigh(r: seq<Payout>, seat: nat) returns (k: nat)
      ensures k <= |r|
      ensures FirstHigh(r, seat) == if k < |r| then Some(k) else None
    {
      k := 0;
      while k < |r| && !(r[k].seat == seat && r[k].kind == High)
        invariant k <= |r|
        invariant forall j :: 0 <= j < k ==> !(r[j].seat == seat && r[j].kind == High)
      {
        k := k + 1;
      }
      FirstHighAt(r, seat, k);
    }

    /** The low scan of `determine_winners` over the players still in the hand. */
    method BestLowSeats(active: seq<nat>) returns (lows: seq<nat>)
      requires forall k :: 0 <= k < |active| ==> active[k] < |t.players|
      ensures lows == LowSeats(t.players, active)
    {
      var ps := t.players;
      var bestLow: Option<LowResult> := None;
      lows := [];
      for i := 0 to |active|
        invariant (bestLow, lows) == LowTally(ps, active, i)
      {
        var p := ps[active[i]];
        if p.low.Some? && p.low.value.qualifies {
          var l := LowOf(p.low.value);
          if bestLow.None? {
            bestLow, lows := Some(l), [active[i]];
          } else {
            var c := CompareLowHands(l, bestLow.value);
            if c > 0 {
              bestLow, lows := Some(l), [active[i]];
            } else if c == 0 {
              lows := lows + [active[i]];
            }
          }
        }
      }
      LowTallyLeaders(ps, active, |active|);
      assert active[..|active|] == active;
      assert TallyAgrees(ps, active, |active|);
    }

    /** The low half of a Hi-Lo split: each low winner's share, merged into its high entry as a scoop or added as a low win. */
    method PayLows(lows: seq<nat>, total: int, names: seq<Option<string>>, results: seq<Payout>) returns (payouts: seq<Payout>)
      requires |lows| >= 1 && |names| == |lows|
      requires forall k :: 0 <= k < |lows| ==> lows[k] < |t.players|
      modifies t`players
      ensures t.players == Credit(old(t.players), lows, Shares(total, |lows|))
      ensures TotalChips(t.players) == TotalChips(old(t.players)) + total
      ensures payouts == MergeLows(results, lows, Shares(total, |lows|), names, |lows|)
    {
      var share := total / |lows|;
      var remainder := total % |lows|;
      ghost var amounts := Shares(total, |lows|);
      payouts := results;
      for i := 0 to |lows|
        invariant t.players == Credit(old(t.players), lows[..i], amounts[..i])
        invariant payouts == MergeLows(results, lows, amounts, names, i)
      {
        var amount := share + (if i < remainder then 1 else 0);
        assert amount == amounts[i];
        assert lows[..i + 1][..i] == lows[..i] && amounts[..i + 1][..i] == amounts[..i];
        assert lows[..i + 1][i] == lows[i] && amounts[..i + 1][i] == amount;
        var before := t.players;
        t.players := before[lows[i] := before[lows[i]].(chips := before[lows[i]].chips + amount)];
        assert t.players == Credit(old(t.players), lows[..i + 1], amounts[..i + 1]);
        ghost var merged := payouts;
        var k := FindHigh(payouts, lows[i]);
        if k < |payouts| {
          payouts := payouts[k := payouts[k].(amount := payouts[k].amount + amount, kind := Scoop)];
        } else {
          payouts := payouts + [Payout(lows[i], amount, names[i], LowWin)];
        }
        assert payouts == MergeLow(merged, lows[i], amounts[i], names[i]);
      }
      assert lows[..|lows|] == lows && amounts[..|lows|] == amounts;
      SplitPaysPot(old(t.players), lows, total);
    }

    /** The Hi-Lo split of `determine_winners` once a low qualifies: the high half, then the low half merged in. */
    method PayHiLo(high: seq<nat>, lows: seq<nat>) returns (payouts: seq<Payout>)
      requires |high| >= 1 && |lows| >= 1
      requires forall k :: 0 <= k < |high| ==> high[k] < |t.players|
      requires forall k :: 0 <= k < |lows| ==> lows[k] < |t.players|
      modifies t`players
      ensures t.players == Credit(Credit(old(t.players), high, Shares(HighHalf(t.pot), |high|)), lows, Shares(LowHalf(t.pot), |lows|))
      ensures payouts == HiLoPayouts(old(t.players), high, lows, t.pot)
      ensures TotalChips(t.players) == TotalChips(old(t.players)) + t.pot
    {
      var ps, pot := t.players, t.pot;
      var highPart := t.PaySplit(high, HighHalf(pot), HandNames(ps, high), High);
      payouts := PayLows(lows, LowHalf(pot), LowNames(ps, lows), highPart);
    }

    /**
     * The showdown of `determine_winners` over evaluated hands: the best
     * high hands among `active` share the pot, or, in the Hi-Lo mode with a
     * qualifying low, the high half of it while the best lows share the rest.
     */
    method PayShowdown(active: seq<nat>) returns (payouts: seq<Payout>)
      requires |active| >= 1 && Increasing(active)
      requires forall k :: 0 <= k < |active| ==> active[k] < |t.players| && t.players[active[k]].hand.Some?
      modifies t`players
      ensures ShowdownPaid(old(t.players), active, t.pot, hiLo, labels, t.players, payouts)
      ensures Paid(payouts) == t.pot
      ensures TotalChips(t.players) == TotalChips(old(t.players)) + t.pot
    {
      var ps := t.players;
      var high := t.BestHighSeats(active);
      assert high == BestSeats(ps, active);
      var names := HandNames(ps, high);
      if !hiLo {
        payouts := t.PaySplit(high, t.pot, names, HighOnlyKind(hiLo, labels));
        SplitPaysOut(high, t.pot, names, HighOnlyKind(hiLo, labels));
        return;
      }
      var lows := BestLowSeats(active);
      if |lows| == 0 {
        payouts := t.PaySplit(high, t.pot, names, HighOnlyKind(hiLo, labels));
        SplitPaysOut(high, t.pot, names, HighOnlyKind(hiLo, labels));
        return;
      }
      payouts := PayHiLo(high, lows);
      assert Increasing(high) by {
        LeadersIncreasing(active, HandsAt(ps, active), CompareHands, |active|);
      }
      assert Increasing(lows) by {
        var q := Qualifiers(ps, active);
        QualifiersIncreasing(ps, active);
        LeadersIncreasing(q, LowsAt(ps, q), CompareLowHands, |q|);
      }
      HiLoPayoutsFacts(ps, high, lows, t.pot);
    }

    /**
     * `determine_winners`: a lone player still in the hand takes the pot;
     * otherwise the hands are evaluated and paid as `ShowdownPaid` says.
     * The pot is not emptied.
     */
    method DetermineWinners() returns (payouts: seq<Payout>, ghost shown: seq<Player>)
      requires |Where(t.players, InHand)| >= 1
      requires |Where(t.players, InHand)| >= 2 ==> Evaluable(t.players)
      modifies t`players
      ensures
        var active := Where(old(t.players), InHand);
        && (|active| == 1 ==>
              && t.players == old(t.players)[active[0] := old(t.players)[active[0]].(chips := old(t.players)[active[0]].chips + t.pot)]
              && payouts == [Payout(active[0], t.pot, None, LoneKind(labels))])
        && (|active| >= 2 ==>
              && StudEvaluated(old(t.players), shown, Wilds(wildRank), hiLo)
              && ShowdownPaid(shown, active, t.pot, hiLo, labels, t.players, payouts))
      ensures Paid(payouts) == t.pot
      ensures TotalChips(t.players) == TotalChips(old(t.players)) + t.pot
    {
      var active := Where(t.players, InHand);
      if |active| == 1 {
        shown := t.players;
        payouts := t.PayLoneWinner(active[0], LoneKind(labels));
        assert Paid(payouts) == Paid([]) + t.pot;
        return;
      }
      ghost var before := t.players;
      EvaluateHands();
      shown := t.players;
      StudEvaluatedHands(before, shown, Wilds(wildRank), hiLo);
      StudEvaluatedKeepsStacks(before, shown, Wilds(wildRank), hiLo);
      payouts := PayShowdown(active);
    }

    /**
     * `new_hand` for Follow the Queen: a fresh deck, every player's bet,
     * fold, hand and cards cleared, the busted players gone and the seats
     * renumbered, the button moved, and, when at least two players remain,
     * the hand opened on third street with Queens wild again.
     */
    method NewHand(shuffled: seq<Card>) returns (continues: bool)
      requires Funded(t.players) && 3 * |Kept(t.players)| <= |shuffled|
      modifies t, this`wildRank, this`history
      ensures
        var r := Reseat(old(t.State()), shuffled, ThirdStreet, t.renumbers).(current := old(t.current));
        && (continues <==> |r.players| >= 2)
        && (continues ==>
              && 3 * |r.players| <= |r.deck|
              && (t.State(), wildRank, history) == StudOpening(r, ante, bringIn)
              && DealtFor(t.players, ThirdStreet))
        && (!continues ==> t.State() == r && wildRank == old(wildRank) && history == old(history))
    {
      ghost var s0 := t.State();
      RemainingKeepsChips(s0.players, t.renumbers);
      ReseatFacts(s0, shuffled, ThirdStreet, t.renumbers);
      RemainingHoldNoCards(s0.players, t.renumbers);
      continues := t.ResetForNewHand(shuffled, ThirdStreet);
      if continues {
        ghost var r := t.State();
        InitializeHand();
        OpeningDealsThird(r, ante, bringIn);
      }
    }
  }
}
