/**
 * Texas Hold'em (`HoldemGame`): game_classes.py:395-517 takes antes and
 * renumbers the seats at each new hand, app.py:700-830 posts blinds and
 * keeps the seat ids. Both deal two hole cards to each player, then the
 * flop, turn and river with a burn card before each, then evaluate every
 * remaining player's best five cards at the showdown.
 */
module Holdem {
  import opened Wrappers
  import opened Cards
  import opened Combinations
  import opened HandEvaluator
  import opened HandComparison
  import opened BestHandSearch
  import opened PokerTable

  /** The forced bets of a hand: antes (game_classes.py) or blinds (app.py). */
  datatype Forced = Antes(ante: nat) | Blinds(small: nat, big: nat)

  // ---------------------------------------------------------------------------
  // _post_blinds
  // ---------------------------------------------------------------------------

  /** One blind: the player puts in `min(amount, chips)`, which becomes their bet. */
  function PostBlind(ps: seq<Player>, seat: nat, amount: nat): (r: (seq<Player>, int))
    requires seat < |ps|
  {
    var a := Min(amount, ps[seat].chips);
    (ps[seat := ps[seat].(chips := ps[seat].chips - a, bet := a)], a)
  }

  /**
   * `_post_blinds`: the small blind left of the dealer, the big blind two
   * seats left; the bet to match is the full big blind, whatever the big
   * blind could afford, and the big blind is the last raiser.
   */
  function BlindsPosted(s: TableState, small: nat, big: nat): TableState
    requires |s.players| >= 1
  {
    var n := |s.players|;
    var sb := (s.dealer + 1) % n;
    var bb := (s.dealer + 2) % n;
    var first := PostBlind(s.players, sb, small);
    var second := PostBlind(first.0, bb, big);
    s.(players := second.0, pot := s.pot + first.1 + second.1, currentBet := big, lastRaiser := Some(bb))
  }

  /**
   * With two or more players the blinds are two different seats; each puts
   * in what it can afford up to its blind and that is its bet, nobody else
   * is touched, the pot gains exactly what the stacks lose, and the bet to
   * match is the big blind even when the big blind was short.
   */
  lemma BlindsFacts(s: TableState, small: nat, big: nat)
    requires Funded(s.players) && |s.players| >= 2 && s.dealer < |s.players|
    ensures
      var r := BlindsPosted(s, small, big);
      var n := |s.players|;
      var sb, bb := (s.dealer + 1) % n, (s.dealer + 2) % n;
      var a, b := Min(small, s.players[sb].chips), Min(big, s.players[bb].chips);
      && Funded(r.players) && |r.players| == n && sb != bb
      && r.pot + TotalChips(r.players) == s.pot + TotalChips(s.players)
      && r.players[sb] == s.players[sb].(chips := s.players[sb].chips - a, bet := a)
      && r.players[bb] == s.players[bb].(chips := s.players[bb].chips - b, bet := b)
      && (forall j :: 0 <= j < n && j != sb && j != bb ==> r.players[j] == s.players[j])
      && r == s.(players := r.players, pot := r.pot, currentBet := big, lastRaiser := Some(bb))
  {
    var n := |s.players|;
    var sb, bb := (s.dealer + 1) % n, (s.dealer + 2) % n;
    assert sb != bb by {
      ModOnce(s.dealer + 1, n);
      ModOnce(s.dealer + 2, n);
    }
    TwoBlinds(s.players, sb, bb, small, big);
  }

  /** Both blinds, at two different seats: only those two seats change, and the pot gains what they lose. */
  lemma TwoBlinds(ps: seq<Player>, sb: nat, bb: nat, small: nat, big: nat)
    requires Funded(ps) && sb < |ps| && bb < |ps| && sb != bb
    ensures
      var first := PostBlind(ps, sb, small);
      var second := PostBlind(first.0, bb, big);
      var a, b := Min(small, ps[sb].chips), Min(big, ps[bb].chips);
      && Funded(second.0) && |second.0| == |ps|
      && first.1 + second.1 + TotalChips(second.0) == TotalChips(ps)
      && second.0 == ps[sb := ps[sb].(chips := ps[sb].chips - a, bet := a)][bb := ps[bb].(chips := ps[bb].chips - b, bet := b)]
  {
    var first := PostBlind(ps, sb, small);
    PostBlindFacts(ps, sb, small);
    PostBlindFacts(first.0, bb, big);
  }

  /** One blind keeps every stack funded and moves into the pot what the stack loses. */
  lemma PostBlindFacts(ps: seq<Player>, seat: nat, amount: nat)
    requires Funded(ps) && seat < |ps|
    ensures
      var r := PostBlind(ps, seat, amount);
      && Funded(r.0) && |r.0| == |ps| && r.1 >= 0
      && r.1 + TotalChips(r.0) == TotalChips(ps)
  {
    var r := PostBlind(ps, seat, amount);
    TotalChipsUpdate(ps, seat, r.0[seat]);
  }

  // ---------------------------------------------------------------------------
  // _deal_hole_cards and _initialize_hand
  // ---------------------------------------------------------------------------

  /** `_deal_hole_cards`: two passes round the table, one card to each player still in the hand per pass. */
  function HoleDeal(ps: seq<Player>, deck: seq<Card>): (r: (seq<Player>, seq<Card>))
    requires 2 * |ps| <= |deck|
    ensures |r.0| == |ps|
  {
    var first := DealPass(ps, deck, Hole, |ps|);
    DealPassOnlyCards(ps, deck, Hole, |ps|);
    TakersAgree(ps, first.0, |ps|);
    var second := DealPass(first.0, first.1, Hole, |ps|);
    (second.0, second.1)
  }

  /**
   * At the start of a hand, when nobody has folded, seat `j` of `n` gets
   * the `j`-th card from the top of the deck and then the `(n + j)`-th, and
   * the deck loses exactly its top `2 * n` cards; nothing but the hole
   * cards changes.
   */
  lemma HoleCardsDealt(ps: seq<Player>, deck: seq<Card>)
    requires 2 * |ps| <= |deck|
    requires forall j :: 0 <= j < |ps| ==> !ps[j].folded
    ensures
      var r := HoleDeal(ps, deck);
      var n, m := |ps|, |deck|;
      && r.1 == deck[..m - 2 * n] && |r.0| == n
      && forall j :: 0 <= j < n ==> r.0[j] == ps[j].(hole := ps[j].hole + [deck[m - 1 - j], deck[m - 1 - n - j]])
  {
    var n, m := |ps|, |deck|;
    NobodyFolded(ps, n);
    var first := DealPass(ps, deck, Hole, n);
    DealPassOnlyCards(ps, deck, Hole, n);
    DealPassDeck(ps, deck, Hole, n);
    TakersAgree(ps, first.0, n);
    var second := DealPass(first.0, first.1, Hole, n);
    DealPassDeck(first.0, first.1, Hole, n);
    assert HoleDeal(ps, deck) == (second.0, second.1);
    forall j | 0 <= j < n
      ensures second.0[j] == ps[j].(hole := ps[j].hole + [deck[m - 1 - j], deck[m - 1 - n - j]])
    {
      NobodyFolded(ps, j);
      DealPassFacts(ps, deck, Hole, n, j);
      assert CardsOnly(ps[j], first.0[j]);
      NobodyFolded(first.0, j);
      DealPassFacts(first.0, first.1, Hole, n, j);
    }
  }

  /** The forced bets of `_initialize_hand`. */
  function Posted(s: TableState, forced: Forced): (r: TableState)
    requires |s.players| >= 1
    ensures |r.players| == |s.players| && r.deck == s.deck
  {
    match forced
    case Antes(ante) => AntesPosted(s, ante)
    case Blinds(small, big) => BlindsPosted(s, small, big)
  }

  /** The seat `_initialize_hand` starts the action from: left of the dealer with antes, three seats on with blinds. */
  function FirstToAct(s: TableState, forced: Forced): nat
    requires |s.players| >= 1
  {
    (s.dealer + (if forced.Antes? then 1 else 3)) % |s.players|
  }

  /** `_initialize_hand`: forced bets, two hole cards each, and the first player who can act. */
  function Opening(s: TableState, forced: Forced): (r: TableState)
    requires |s.players| >= 1 && 2 * |s.players| <= |s.deck|
    ensures |r.players| == |s.players|
  {
    var posted := Posted(s, forced);
    var dealt := HoleDeal(posted.players, posted.deck);
    posted.(players := dealt.0, deck := dealt.1, current := Skip(dealt.0, FirstToAct(s, forced)))
  }

  /** The first seat to act depends only on the dealer and the number of seats. */
  lemma FirstToActDepends(a: TableState, b: TableState, forced: Forced)
    requires |a.players| >= 1 && a.dealer == b.dealer && |a.players| == |b.players|
    ensures FirstToAct(a, forced) == FirstToAct(b, forced)
  {
  }

  /** The opening table is the posted one with the hole cards dealt and the turn on the first player who can act. */
  lemma OpeningIs(s: TableState, forced: Forced, posted: TableState, dealt: (seq<Player>, seq<Card>))
    requires |s.players| >= 1 && 2 * |s.players| <= |s.deck|
    requires posted == Posted(s, forced) && dealt == HoleDeal(posted.players, posted.deck)
    ensures Opening(s, forced) == posted.(players := dealt.0, deck := dealt.1, current := Skip(dealt.0, FirstToAct(s, forced)))
  {
  }

  /**
   * The forced bets move chips from the stacks to the pot and nothing
   * else: no card, fold or all-in flag changes, and only the blinds change
   * the bet to match and the last raiser.
   */
  lemma PostedFacts(s: TableState, forced: Forced)
    requires Funded(s.players) && |s.players| >= 2 && s.dealer < |s.players|
    ensures
      var r := Posted(s, forced);
      && Funded(r.players) && |r.players| == |s.players|
      && r.pot + TotalChips(r.players) == s.pot + TotalChips(s.players)
      && (forall j :: 0 <= j < |s.players| ==> r.players[j].hole == s.players[j].hole && r.players[j].folded == s.players[j].folded)
      && (forced.Blinds? ==> r == s.(players := r.players, pot := r.pot, currentBet := forced.big, lastRaiser := Some((s.dealer + 2) % |s.players|)))
      && (forced.Antes? ==> r == s.(players := r.players, pot := r.pot))
  {
    match forced {
      case Antes(ante) => AntesFacts(s, ante);
      case Blinds(small, big) => BlindsFacts(s, small, big);
    }
  }

  /**
   * Opening a hand at a table where nobody has folded keeps the pot plus
   * the stacks constant, gives seat `j` of `n` the `j`-th and the
   * `(n + j)`-th card from the top of the deck, takes exactly `2 * n`
   * cards off the deck, and hands the turn to the first player who can act
   * from the starting seat on; with blinds the bet to match is the big
   * blind and the big blind is the last raiser.
   */
  lemma OpeningFacts(s: TableState, forced: Forced)
    requires Funded(s.players) && s.currentBet >= 0 && |s.players| >= 2 && s.dealer < |s.players|
    requires 2 * |s.players| <= |s.deck|
    requires forall j :: 0 <= j < |s.players| ==> !s.players[j].folded
    ensures
      var r := Opening(s, forced);
      var n, m := |s.players|, |s.deck|;
      && Seated(r) && |r.players| == n
      && r.pot + TotalChips(r.players) == s.pot + TotalChips(s.players)
      && r.deck == s.deck[..m - 2 * n]
      && (forall j :: 0 <= j < n ==> r.players[j].hole == s.players[j].hole + [s.deck[m - 1 - j], s.deck[m - 1 - n - j]])
      && LandsFrom(r.players, FirstToAct(s, forced), 0, r.current)
      && (forced.Blinds? ==> r.currentBet == forced.big && r.lastRaiser == Some((s.dealer + 2) % n))
      && (forced.Antes? ==> r.currentBet == s.currentBet && r.lastRaiser == s.lastRaiser)
  {
    OpeningChips(s, forced);
    OpeningCards(s, forced);
  }

  /** The chips, bets and turn of `Opening`. */
  lemma OpeningChips(s: TableState, forced: Forced)
    requires Funded(s.players) && s.currentBet >= 0 && |s.players| >= 2 && s.dealer < |s.players|
    requires 2 * |s.players| <= |s.deck|
    ensures
      var r := Opening(s, forced);
      && Seated(r) && |r.players| == |s.players|
      && r.pot + TotalChips(r.players) == s.pot + TotalChips(s.players)
      && (forced.Blinds? ==> r.currentBet == forced.big && r.lastRaiser == Some((s.dealer + 2) % |s.players|))
      && (forced.Antes? ==> r.currentBet == s.currentBet && r.lastRaiser == s.lastRaiser)
  {
    var posted := Posted(s, forced);
    PostedFacts(s, forced);
    HoleDealKeepsChips(posted.players, posted.deck);
  }

  /** The cards and the first to act of `Opening`. */
  lemma OpeningCards(s: TableState, forced: Forced)
    requires Funded(s.players) && |s.players| >= 2 && s.dealer < |s.players|
    requires 2 * |s.players| <= |s.deck|
    requires forall j :: 0 <= j < |s.players| ==> !s.players[j].folded
    ensures
      var r := Opening(s, forced);
      var n, m := |s.players|, |s.deck|;
      && r.deck == s.deck[..m - 2 * n]
      && (forall j :: 0 <= j < n ==> r.players[j].hole == s.players[j].hole + [s.deck[m - 1 - j], s.deck[m - 1 - n - j]])
      && LandsFrom(r.players, FirstToAct(s, forced), 0, r.current)
  {
    OpeningHoles(s, forced);
    var r := Opening(s, forced);
    SkipLands(r.players, FirstToAct(s, forced));
  }

  /** Forced bets change no hole card and no fold flag. */
  lemma PostedKeepsCards(s: TableState, forced: Forced)
    requires Funded(s.players) && |s.players| >= 2 && s.dealer < |s.players|
    ensures
      var ps := Posted(s, forced).players;
      && |ps| == |s.players|
      && forall j :: 0 <= j < |s.players| ==> ps[j].hole == s.players[j].hole && ps[j].folded == s.players[j].folded
  {
    PostedFacts(s, forced);
  }

  /** The hole cards and the deck after `Opening`. */
  lemma OpeningHoles(s: TableState, forced: Forced)
    requires Funded(s.players) && |s.players| >= 2 && s.dealer < |s.players|
    requires 2 * |s.players| <= |s.deck|
    requires forall j :: 0 <= j < |s.players| ==> !s.players[j].folded
    ensures
      var r := Opening(s, forced);
      var n, m := |s.players|, |s.deck|;
      && r.deck == s.deck[..m - 2 * n]
      && (forall j :: 0 <= j < n ==> r.players[j].hole == s.players[j].hole + [s.deck[m - 1 - j], s.deck[m - 1 - n - j]])
  {
    OpeningDeals(s, forced);
    PostedKeepsCards(s, forced);
    DealtHoles(s, forced, Posted(s, forced).players);
  }

  /** `OpeningHoles` once the posted seats are known to hold the cards of `s`. */
  lemma DealtHoles(s: TableState, forced: Forced, q: seq<Player>)
    requires |s.players| >= 2 && 2 * |s.players| <= |s.deck|
    requires forall i :: 0 <= i < |s.players| ==> !s.players[i].folded
    requires |q| == |s.players|
    requires forall j :: 0 <= j < |s.players| ==> q[j].hole == s.players[j].hole && q[j].folded == s.players[j].folded
    requires Opening(s, forced).players == HoleDeal(q, s.deck).0 && Opening(s, forced).deck == HoleDeal(q, s.deck).1
    ensures
      var r := Opening(s, forced);
      var n, m := |s.players|, |s.deck|;
      && r.deck == s.deck[..m - 2 * n]
      && (forall j :: 0 <= j < n ==> r.players[j].hole == s.players[j].hole + [s.deck[m - 1 - j], s.deck[m - 1 - n - j]])
  {
    HolesOverPosted(s.players, q, s.deck);
  }

  /** `Opening` is the hole-card deal over the posted table. */
  lemma OpeningDeals(s: TableState, forced: Forced)
    requires |s.players| >= 1 && 2 * |s.players| <= |s.deck|
    ensures
      var ps := Posted(s, forced).players;
      var r := Opening(s, forced);
      && r.players == HoleDeal(ps, s.deck).0 && r.deck == HoleDeal(ps, s.deck).1
  {
  }

  /** Dealing hole cards to seats that hold the same cards as `ps`. */
  lemma HolesOverPosted(ps: seq<Player>, qs: seq<Player>, deck: seq<Card>)
    requires |qs| == |ps| && 2 * |ps| <= |deck|
    requires forall j :: 0 <= j < |ps| ==> qs[j].hole == ps[j].hole && qs[j].folded == ps[j].folded
    requires forall j :: 0 <= j < |ps| ==> !ps[j].folded
    ensures
      var r := HoleDeal(qs, deck);
      var n, m := |ps|, |deck|;
      && r.1 == deck[..m - 2 * n]
      && (forall j :: 0 <= j < n ==> r.0[j].hole == ps[j].hole + [deck[m - 1 - j], deck[m - 1 - n - j]])
  {
    HoleCardsDealt(qs, deck);
  }

  /** Dealing hole cards moves no chips. */
  lemma HoleDealKeepsChips(ps: seq<Player>, deck: seq<Card>)
    requires 2 * |ps| <= |deck|
    ensures var r := HoleDeal(ps, deck);
      && TotalChips(r.0) == TotalChips(ps)
      && (Funded(ps) ==> Funded(r.0))
  {
    var first := DealPass(ps, deck, Hole, |ps|);
    DealPassOnlyCards(ps, deck, Hole, |ps|);
    TakersAgree(ps, first.0, |ps|);
    var second := DealPass(first.0, first.1, Hole, |ps|);
    DealPassOnlyCards(first.0, first.1, Hole, |ps|);
    assert HoleDeal(ps, deck).0 == second.0;
    forall j | 0 <= j < |ps| ensures second.0[j].chips == ps[j].chips && second.0[j].bet == ps[j].bet {
      assert CardsOnly(ps[j], first.0[j]);
      assert CardsOnly(first.0[j], second.0[j]);
    }
    TotalChipsAgree(second.0, ps);
  }

  /** Three players facing a bet of 20 raised by seat 0, with the given bets, none folded, none forced all-in by a call. */
  ghost predicate ThreeHanded(s: TableState, b0: int, b1: int, b2: int)
  {
    && |s.players| == 3 && s.currentBet == 20 && s.lastRaiser == Some(0)
    && s.players[0].bet == b0 && s.players[1].bet == b1 && s.players[2].bet == b2
    && forall j :: 0 <= j < 3 ==> s.players[j].chips + s.players[j].bet > 20 && !s.players[j].folded && !s.players[j].allIn
  }

  lemma BlindsOpenThreeHanded(s: TableState)
    requires |s.players| == 3 && s.dealer == 1 && 6 <= |s.deck|
    requires forall j :: 0 <= j < 3 ==> s.players[j].chips > 20 && s.players[j].bet == 0 && !s.players[j].folded && !s.players[j].allIn
    ensures
      var o := Opening(s, Blinds(10, 20));
      && ThreeHanded(o, 20, 0, 10) && o.current == 1 && o.phase == s.phase && o.roundComplete == s.roundComplete
  {
    var forced := Blinds(10, 20);
    var posted := Posted(s, forced);
    BlindsFacts(s, 10, 20);
    HoleCardsDealt(posted.players, posted.deck);
    var o := Opening(s, forced);
    assert forall j :: 0 <= j < 3 ==> o.players[j] == posted.players[j].(hole := o.players[j].hole);
  }

  /** With two or more players who can all act, the round neither ends for a lone player nor for lack of players. */
  lemma NobodyOut(ps: seq<Player>)
    requires |ps| >= 2 && forall j :: 0 <= j < |ps| ==> CanAct(ps[j])
    ensures |Where(ps, InHand)| >= 2 && |Where(ps, CanAct)| >= 1
  {
    var w := Where(ps, InHand);
    assert 0 in w && 1 in w;
    var k0 :| 0 <= k0 < |w| && w[k0] == 0;
    var k1 :| 0 <= k1 < |w| && w[k1] == 1;
    assert k0 != k1;
    assert 0 in Where(ps, CanAct);
  }

  lemma SeatOneCalls(o: TableState)
    requires ThreeHanded(o, 20, 0, 10) && o.current == 1 && !o.roundComplete
    ensures
      var a := Respond(o, Call, None);
      && a.1 && ThreeHanded(a.0, 20, 20, 10) && a.0.current == 2 && !a.0.roundComplete && a.0.phase == o.phase
  {
    CallAtOne(o);
    TurnToTwo(Act(o, Call, None).value);
  }

  lemma CallAtOne(o: TableState)
    requires ThreeHanded(o, 20, 0, 10) && o.current == 1 && !o.roundComplete
    ensures Act(o, Call, None).Some?
    ensures
      var a1 := Act(o, Call, None).value;
      ThreeHanded(a1, 20, 20, 10) && a1.current == 1 && !a1.roundComplete && a1.phase == o.phase
  {
    var a1 := Act(o, Call, None).value;
    assert a1.players[1].bet == 20 && !a1.players[1].allIn;
  }

  lemma TurnToTwo(a1: TableState)
    requires ThreeHanded(a1, 20, 20, 10) && a1.current == 1 && !a1.roundComplete
    ensures
      var a := Advance(a1);
      ThreeHanded(a, 20, 20, 10) && a.current == 2 && !a.roundComplete && a.phase == a1.phase
  {
    SkipStaysOnAble(a1.players, (a1.current + 1) % 3);
    NobodyOut(a1.players);
    assert !AllMatched(a1.players, 20);
  }

  lemma SeatTwoCalls(a: TableState)
    requires ThreeHanded(a, 20, 20, 10) && a.current == 2 && !a.roundComplete
    ensures
      var b := Respond(a, Call, None);
      && b.1 && b.0.current == 0 && b.0.roundComplete && b.0.phase == a.phase
  {
    CallAtTwo(a);
    TurnToZero(Act(a, Call, None).value);
  }

  lemma CallAtTwo(a: TableState)
    requires ThreeHanded(a, 20, 20, 10) && a.current == 2 && !a.roundComplete
    ensures Act(a, Call, None).Some?
    ensures
      var b1 := Act(a, Call, None).value;
      ThreeHanded(b1, 20, 20, 20) && b1.current == 2 && !b1.roundComplete && b1.phase == a.phase
  {
    var b1 := Act(a, Call, None).value;
    assert b1.players[2].bet == 20 && !b1.players[2].allIn;
  }

  lemma TurnToZero(b1: TableState)
    requires ThreeHanded(b1, 20, 20, 20) && b1.current == 2 && !b1.roundComplete
    ensures
      var b := Advance(b1);
      b.current == 0 && b.roundComplete && b.phase == b1.phase
  {
    assert forall j :: 0 <= j < 3 ==> InHand(b1.players[j]) && CanAct(b1.players[j]);
    assert (b1.current + 1) % 3 == 0;
    SkipStaysOnAble(b1.players, 0);
    var c := b1.(current := 0);
    assert Advance(b1) == Complete(c);
    NobodyOut(c.players);
    assert AllMatched(c.players, 20) by {
      forall i | 0 <= i < |c.players| ensures c.players[i].bet == 20 {
        assert i == 0 || i == 1 || i == 2;
      }
    }
  }

  /**
   * Three players, the button on seat 1: seat 2 posts the small blind,
   * seat 0 the big blind, and the action starts on seat 1. When seat 1
   * calls and seat 2 calls, the turn comes back to the big blind as the
   * last raiser with every bet matched, so the pre-flop round is complete
   * and the big blind never gets to check or raise.
   */
  lemma BigBlindGetsNoOption(s: TableState)
    requires |s.players| == 3 && s.dealer == 1 && 6 <= |s.deck| && !s.roundComplete
    requires forall j :: 0 <= j < 3 ==> s.players[j].chips > 20 && s.players[j].bet == 0 && !s.players[j].folded && !s.players[j].allIn
    ensures
      var o := Opening(s, Blinds(10, 20));
      var a := Respond(o, Call, None);
      var b := Respond(a.0, Call, None);
      && o.current == 1 && o.lastRaiser == Some(0)
      && a.1 && a.0.current == 2 && !a.0.roundComplete
      && b.1 && b.0.current == 0 && b.0.roundComplete && b.0.phase == s.phase
  {
    BlindsOpenThreeHanded(s);
    var o := Opening(s, Blinds(10, 20));
    SeatOneCalls(o);
    SeatTwoCalls(Respond(o, Call, None).0);
  }

  // ---------------------------------------------------------------------------
  // advance_phase: the board
  // ---------------------------------------------------------------------------

  /** Whether the board holds as many community cards as `phase` shows. */
  predicate BoardFits(phase: Phase, board: seq<Card>)
  {
    match phase
    case PreFlop => |board| == 0
    case Flop => |board| == 3
    case Turn => |board| == 4
    case River => |board| == 5
    case _ => |board| <= 5
  }

  /** The cards a street takes off the deck: a burn card and the cards turned up. */
  function StreetCost(phase: Phase): nat
  {
    match phase
    case PreFlop => 4
    case Flop => 2
    case Turn => 2
    case _ => 0
  }

  /** The dealing branch of `advance_phase`: the next phase, the board and the deck. */
  function Street(phase: Phase, board: seq<Card>, deck: seq<Card>): (r: (Phase, seq<Card>, seq<Card>))
    requires StreetCost(phase) <= |deck|
  {
    var n := |deck|;
    match phase
    case PreFlop => (Flop, board + [deck[n - 2], deck[n - 3], deck[n - 4]], deck[..n - 4])
    case Flop => (Turn, board + [deck[n - 2]], deck[..n - 2])
    case Turn => (River, board + [deck[n - 2]], deck[..n - 2])
    case River => (Showdown, board, deck)
    case _ => (phase, board, deck)
  }

  /**
   * A street burns the top card and turns up the cards under it, in order,
   * onto the end of the board; the deck loses exactly those cards and the
   * board keeps the cards it had.
   */
  lemma StreetFacts(phase: Phase, board: seq<Card>, deck: seq<Card>)
    requires StreetCost(phase) <= |deck|
    ensures
      var r := Street(phase, board, deck);
      var n, k := |deck|, StreetCost(phase);
      && r.2 == deck[..n - k]
      && |r.1| == |board| + (if k == 0 then 0 else k - 1) && r.1[..|board|] == board
      && (forall i :: |board| <= i < |r.1| ==> r.1[i] == deck[n - 2 - (i - |board|)])
  {
    var n := |deck|;
    match phase {
      case PreFlop =>
        var r := board + [deck[n - 2], deck[n - 3], deck[n - 4]];
        assert r[..|board|] == board;
      case Flop =>
        assert (board + [deck[n - 2]])[..|board|] == board;
      case Turn =>
        assert (board + [deck[n - 2]])[..|board|] == board;
      case River =>
        assert deck[..n] == deck;
      case _ =>
        assert deck[..n] == deck;
    }
  }

  /**
   * Starting from a board that fits its phase, each street of a hand keeps
   * the board fitting the next phase, so no board ever holds more than five
   * cards.
   */
  lemma BoardFollowsPhase(phase: Phase, board: seq<Card>, deck: seq<Card>)
    requires BoardFits(phase, board) && StreetCost(phase) <= |deck|
    ensures BoardFits(Street(phase, board, deck).0, Street(phase, board, deck).1)
    ensures |Street(phase, board, deck).1| <= 5
  {
  }

  /**
   * As written, a board left over from a hand that reached the river does
   * not fit the first phase of the next hand, and its flop then puts eight
   * cards on the board.
   */
  lemma StaleBoardAtNextFlop(board: seq<Card>, deck: seq<Card>)
    requires BoardFits(River, board) && |deck| >= 4
    ensures !BoardFits(PreFlop, board)
    ensures |Street(PreFlop, board, deck).1| == 8 && !BoardFits(Flop, Street(PreFlop, board, deck).1)
  {
  }

  // ---------------------------------------------------------------------------
  // _evaluate_hands
  // ---------------------------------------------------------------------------

  /** `h` is the value of the best five cards in `pool`: some five cards make it and none beat it. */
  ghost predicate BestHandOf(h: HandValue, pool: seq<Card>)
  {
    && |pool| >= 5 && WellFormed(h)
    && (exists c :: IsCombo(c, 5, 0, |pool|) && h == ComboValue(pool, c))
    && (forall c :: IsCombo(c, 5, 0, |pool|) ==> !Beats(ComboValue(pool, c), h))
  }

  /** A pool has one best value, so `_evaluate_hands` could not have chosen another. */
  lemma BestHandOfUnique(h1: HandValue, h2: HandValue, pool: seq<Card>)
    requires BestHandOf(h1, pool) && BestHandOf(h2, pool)
    ensures h1 == h2
  {
    var c1 :| IsCombo(c1, 5, 0, |pool|) && h1 == ComboValue(pool, c1);
    var c2 :| IsCombo(c2, 5, 0, |pool|) && h2 == ComboValue(pool, c2);
    BeatsIsStrictTotalOrder(h1, h2, h1);
  }

  /** Every player still in the hand can make five cards with the board. */
  ghost predicate Showable(ps: seq<Player>, board: seq<Card>)
  {
    forall j :: 0 <= j < |ps| && !ps[j].folded ==> |ps[j].hole + board| >= 5
  }

  /** `q` is `p` after `_evaluate_hands`: a folded player is untouched, the others hold their best hand. */
  ghost predicate EvaluatedSeat(p: Player, q: Player, board: seq<Card>)
  {
    if p.folded then q == p
    else q.hand.Some? && q == p.(hand := q.hand) && BestHandOf(q.hand.value, p.hole + board)
  }

  ghost predicate Evaluated(before: seq<Player>, after: seq<Player>, board: seq<Card>)
  {
    |after| == |before| && forall j :: 0 <= j < |before| ==> EvaluatedSeat(before[j], after[j], board)
  }

  /** Evaluating hands moves no chips and folds nobody. */
  lemma EvaluatedKeepsStacks(before: seq<Player>, after: seq<Player>, board: seq<Card>)
    requires Evaluated(before, after, board)
    ensures forall j :: 0 <= j < |before| ==> after[j] == before[j].(hand := after[j].hand)
    ensures Funded(before) ==> Funded(after)
    ensures TotalChips(after) == TotalChips(before)
    ensures Where(after, InHand) == Where(before, InHand) && Where(after, CanAct) == Where(before, CanAct)
  {
    assert forall j :: 0 <= j < |before| ==> after[j] == before[j].(hand := after[j].hand) by {
      forall j | 0 <= j < |before| ensures after[j] == before[j].(hand := after[j].hand) {
        assert EvaluatedSeat(before[j], after[j], board);
      }
    }
    TotalChipsAgree(after, before);
    WhereAgree(after, before);
  }

  // ---------------------------------------------------------------------------
  // determine_winners
  // ---------------------------------------------------------------------------

  /**
   * `h` is the hand that wins the showdown: every winner holds it, every
   * player in the hand who holds it wins, and no five cards any player in
   * the hand could make from their hole cards and the board beat it.
   */
  ghost predicate WinningHand(h: HandValue, shown: seq<Player>, board: seq<Card>, active: seq<nat>, w: seq<nat>)
    requires forall k :: 0 <= k < |active| ==> active[k] < |shown|
    requires forall k :: 0 <= k < |w| ==> w[k] < |shown|
  {
    && (forall i :: 0 <= i < |w| ==> shown[w[i]].hand == Some(h))
    && (forall k :: 0 <= k < |active| && shown[active[k]].hand == Some(h) ==> active[k] in w)
    && (forall k, c :: 0 <= k < |active| && IsCombo(c, 5, 0, |shown[active[k]].hole + board|) ==>
          !Beats(ComboValue(shown[active[k]].hole + board, c), h))
  }

  /** Every seat in `active` holds the best hand its hole cards make with the board. */
  ghost predicate HoldsBest(shown: seq<Player>, board: seq<Card>, active: seq<nat>)
  {
    forall k :: 0 <= k < |active| ==>
      active[k] < |shown| && shown[active[k]].hand.Some? && BestHandOf(shown[active[k]].hand.value, shown[active[k]].hole + board)
  }

  /** After `_evaluate_hands` every player still in the hand holds their best hand. */
  lemma EvaluatedHoldBest(before: seq<Player>, shown: seq<Player>, board: seq<Card>)
    requires Evaluated(before, shown, board)
    ensures HoldsBest(shown, board, Where(before, InHand))
  {
    var active := Where(before, InHand);
    forall k | 0 <= k < |active|
      ensures active[k] < |shown| && shown[active[k]].hand.Some? && BestHandOf(shown[active[k]].hand.value, shown[active[k]].hole + board)
    {
      assert EvaluatedSeat(before[active[k]], shown[active[k]], board);
    }
  }

  /**
   * At the showdown the pot goes to exactly the players holding the best
   * hand at the table: the hand nobody still in the hand can beat with any
   * five cards of their own.
   */
  lemma ShowdownPaysBest(shown: seq<Player>, board: seq<Card>, active: seq<nat>)
    requires |active| >= 1 && HoldsBest(shown, board, active)
    ensures exists h :: WinningHand(h, shown, board, active, BestSeats(shown, active))
  {
    var vals := HandsAt(shown, active);
    assert forall k :: 0 <= k < |active| ==> WellFormed(vals[k]);
    BestSeatsTie(shown, active);
    var b := Leaders(active, vals, CompareHands, |active|).0;
    var h := vals[b];
    forall k, c | 0 <= k < |active| && IsCombo(c, 5, 0, |shown[active[k]].hole + board|)
      ensures !Beats(ComboValue(shown[active[k]].hole + board, c), h)
    {
      NotBeatenTransitive(ComboValue(shown[active[k]].hole + board, c), vals[k], h);
    }
    assert WinningHand(h, shown, board, active, BestSeats(shown, active));
  }

  // ---------------------------------------------------------------------------
  // The HoldemGame class
  // ---------------------------------------------------------------------------

  /** A Hold'em table: the shared betting state, the forced bets and the board. */
  class HoldemGame {
    const t: Table
    const forced: Forced
    var community: seq<Card>

    /** `reset_game` and the players joining; the antes version renumbers seats, the blinds version does not. */
    constructor (seated: seq<Player>, forced: Forced)
      requires |seated| >= 1 && Funded(seated)
      ensures fresh(t) && t.Valid() && t.renumbers == forced.Antes? && this.forced == forced
      ensures t.State() == TableState(seated, 0, 0, PreFlop, 0, 0, None, false, []) && community == []
    {
      t := new Table(seated, PreFlop, forced.Antes?);
      this.forced := forced;
      community := [];
    }

    /** `_post_blinds` (app.py). */
    method PostBlinds()
      requires forced.Blinds? && |t.players| >= 1
      modifies t`players, t`pot, t`currentBet, t`lastRaiser
      ensures t.State() == BlindsPosted(old(t.State()), forced.small, forced.big)
    {
      var n := |t.players|;
      var sb := (t.dealer + 1) % n;
      var bb := (t.dealer + 2) % n;
      var a := Min(forced.small, t.players[sb].chips);
      t.players := t.players[sb := t.players[sb].(chips := t.players[sb].chips - a, bet := a)];
      t.pot := t.pot + a;
      var b := Min(forced.big, t.players[bb].chips);
      t.players := t.players[bb := t.players[bb].(chips := t.players[bb].chips - b, bet := b)];
      t.pot := t.pot + b;
      t.currentBet := forced.big;
      t.lastRaiser := Some(bb);
    }

    /** The forced bets: `_post_antes` in game_classes.py, `_post_blinds` in app.py. */
    method PostForced()
      requires Funded(t.players) && |t.players| >= 1
      modifies t`players, t`pot, t`currentBet, t`lastRaiser
      ensures t.State() == Posted(old(t.State()), forced)
    {
      match forced {
        case Antes(ante) => t.PostAntes(ante);
        case Blinds(_, _) => PostBlinds();
      }
    }

    /** `_deal_hole_cards`: two passes round the table. */
    method DealHoleCards()
      requires 2 * |t.players| <= |t.deck|
      modifies t`players, t`deck
      ensures (t.players, t.deck) == HoleDeal(old(t.players), old(t.deck))
    {
      ghost var ps, deck := t.players, t.deck;
      ghost var first := DealPass(ps, deck, Hole, |ps|);
      DealPassOnlyCards(ps, deck, Hole, |ps|);
      TakersAgree(ps, first.0, |ps|);
      for pass := 0 to 2
        invariant pass == 0 ==> t.players == ps && t.deck == deck
        invariant pass == 1 ==> t.players == first.0 && t.deck == first.1
        invariant pass == 2 ==> (t.players, t.deck) == HoleDeal(ps, deck)
      {
        var dealt := t.Deal(Hole);
      }
    }

    /** `_initialize_hand`: forced bets, hole cards, and the first player to act. */
    method InitializeHand()
      requires Funded(t.players) && t.currentBet >= 0 && |t.players| >= 2 && t.dealer < |t.players|
      requires 2 * |t.players| <= |t.deck|
      modifies t
      ensures t.State() == Opening(old(t.State()), forced)
    {
      ghost var s := t.State();
      PostForced();
      PostedFacts(s, forced);
      ghost var posted := t.State();
      DealHoleCards();
      HoleDealKeepsChips(posted.players, posted.deck);
      ghost var dealt := HoleDeal(posted.players, posted.deck);
      assert t.State() == posted.(players := dealt.0, deck := dealt.1);
      t.current := FirstToAct(t.State(), forced);
      FirstToActDepends(posted.(players := dealt.0, deck := dealt.1), s, forced);
      t.SkipFoldedPlayers();
      OpeningIs(s, forced, posted, dealt);
    }

    /** The flop: a burn card, then three cards onto the board. */
    method DealFlop()
      requires 4 <= |t.deck|
      modifies t`deck, this`community
      ensures t.deck == old(t.deck)[..|old(t.deck)| - 4]
      ensures community == old(community) + [old(t.deck)[|old(t.deck)| - 2], old(t.deck)[|old(t.deck)| - 3], old(t.deck)[|old(t.deck)| - 4]]
    {
      ghost var deck, board := t.deck, community;
      var m := |t.deck|;
      var burn := t.Pop();
      for k := 0 to 3
        invariant t.deck == deck[..m - 1 - k]
        invariant community == board + seq(k, i requires 0 <= i < k => deck[m - 2 - i])
      {
        var c := t.Pop();
        community := community + [c];
      }
    }

    /** The turn or the river: a burn card, then one card onto the board. */
    method DealOne()
      requires 2 <= |t.deck|
      modifies t`deck, this`community
      ensures t.deck == old(t.deck)[..|old(t.deck)| - 2]
      ensures community == old(community) + [old(t.deck)[|old(t.deck)| - 2]]
    {
      var burn := t.Pop();
      var c := t.Pop();
      community := community + [c];
    }

    /** `_evaluate_hands`: each player still in the hand gets the best hand of their hole cards and the board. */
    method EvaluateHands()
      requires Showable(t.players, community)
      modifies t`players
      ensures Evaluated(old(t.players), t.players, community)
    {
      ghost var before := t.players;
      for i := 0 to |t.players|
        invariant |t.players| == |before|
        invariant forall j :: 0 <= j < i ==> EvaluatedSeat(before[j], t.players[j], community)
        invariant forall j :: i <= j < |t.players| ==> t.players[j] == before[j]
      {
        var p := t.players[i];
        if !p.folded {
          var best, cards := BestHand(p.hole, community);
          assert BestHandOf(best, p.hole + community);
          t.players := t.players[i := p.(hand := Some(best))];
        }
      }
    }

    /**
     * `advance_phase`: once the betting round is complete, clear the bets,
     * deal the next street and open its betting, or after the river go to
     * the showdown and evaluate every hand still in. A board that fits its
     * phase still fits after the call.
     */
    method AdvancePhase() returns (advanced: bool)
      requires t.Valid() && StreetCost(t.phase) <= |t.deck|
      requires t.phase == River ==> Showable(t.players, community)
      modifies t, this`community
      ensures advanced == old(t.roundComplete)
      ensures !advanced ==> t.State() == old(t.State()) && community == old(community)
      ensures advanced ==>
        var s1 := NewStreet(old(t.State()));
        var st := Street(old(t.phase), old(community), old(t.deck));
        && community == st.1
        && (old(t.phase) == River ==> Evaluated(s1.players, t.players, community) && t.State() == s1.(players := t.players, phase := Showdown))
        && (old(t.phase) != River ==> t.State() == OpenRound(s1.(phase := st.0, deck := st.2)))
      ensures BoardFits(old(t.phase), old(community)) ==> BoardFits(t.phase, community)
    {
      ghost var s0, board := t.State(), community;
      if !t.roundComplete {
        return false;
      }
      if BoardFits(s0.phase, board) {
        BoardFollowsPhase(s0.phase, board, s0.deck);
      }
      if t.phase == River {
        PlayRiver();
      } else {
        PlayStreet();
      }
      advanced := true;
    }

    /** The dealing part of `advance_phase`: clear the bets, deal the street, move to the next phase and open the betting. */
    method PlayStreet()
      requires t.Valid() && StreetCost(t.phase) <= |t.deck| && t.phase != River
      modifies t, this`community
      ensures
        var st := Street(old(t.phase), old(community), old(t.deck));
        && community == st.1
        && t.State() == OpenRound(NewStreet(old(t.State())).(phase := st.0, deck := st.2))
    {
      ghost var s0 := t.State();
      t.StartStreet();
      assert Seated(t.State()) by {
        NewStreetFacts(s0);
      }
      match t.phase {
        case PreFlop =>
          DealFlop();
          t.phase := Flop;
        case Flop =>
          DealOne();
          t.phase := Turn;
        case Turn =>
          DealOne();
          t.phase := River;
        case _ =>
      }
      t.OpenBetting();
    }

    /** The river part of `advance_phase`: clear the bets, go to the showdown and evaluate the hands. */
    method PlayRiver()
      requires t.Valid() && t.phase == River && Showable(t.players, community)
      modifies t`players, t`currentBet, t`roundComplete, t`phase
      ensures
        var s1 := NewStreet(old(t.State()));
        && Evaluated(s1.players, t.players, community)
        && t.State() == s1.(players := t.players, phase := Showdown)
    {
      ghost var s0 := t.State();
      t.StartStreet();
      assert Showable(t.players, community) by {
        assert forall j :: 0 <= j < |t.players| ==> t.players[j].hole == s0.players[j].hole && t.players[j].folded == s0.players[j].folded;
      }
      t.phase := Showdown;
      EvaluateHands();
    }

    /**
     * `determine_winners`: a lone player still in the hand takes the pot;
     * otherwise every hand is evaluated and the pot is split among the
     * players holding the best one, which no player still in can beat.
     */
    method DetermineWinners() returns (payouts: seq<Payout>, ghost shown: seq<Player>)
      requires |Where(t.players, InHand)| >= 1
      requires |Where(t.players, InHand)| >= 2 ==> Showable(t.players, community)
      modifies t`players
      ensures
        var active := Where(old(t.players), InHand);
        && (|active| == 1 ==>
              && t.players == old(t.players)[active[0] := old(t.players)[active[0]].(chips := old(t.players)[active[0]].chips + t.pot)]
              && payouts == [Payout(active[0], t.pot, None, Unlabelled)])
        && (|active| >= 2 ==>
              && Evaluated(old(t.players), shown, community)
              && HoldsBest(shown, community, active)
              && var w := BestSeats(shown, active);
              && t.players == Credit(shown, w, Shares(t.pot, |w|))
              && payouts == SplitPayouts(w, Shares(t.pot, |w|), HandNames(shown, w), Unlabelled)
              && (exists h :: WinningHand(h, shown, community, active, w)))
      ensures TotalChips(t.players) == TotalChips(old(t.players)) + t.pot
    {
      var active := Where(t.players, InHand);
      if |active| == 1 {
        shown := t.players;
        payouts := t.PayLoneWinner(active[0], Unlabelled);
        return;
      }
      ghost var before := t.players;
      EvaluateHands();
      shown := t.players;
      EvaluatedHoldBest(before, shown, community);
      EvaluatedKeepsStacks(before, shown, community);
      ShowdownPaysBest(shown, community, active);
      payouts := t.PayBestHands(active, Unlabelled);
    }

    /** The reset of `new_hand`: a table that goes on is funded and holds the cards for two each. */
    method Reset(shuffled: seq<Card>) returns (continues: bool)
      requires Funded(t.players) && 2 * |Kept(t.players)| <= |shuffled|
      modifies t
      ensures t.State() == Reseat(old(t.State()), shuffled, PreFlop, t.renumbers).(current := old(t.current))
      ensures continues <==> |t.players| >= 2
      ensures continues ==>
        && Funded(t.players) && t.currentBet >= 0 && t.dealer < |t.players| && 2 * |t.players| <= |t.deck|
    {
      ghost var s0 := t.State();
      RemainingKeepsChips(s0.players, t.renumbers);
      ReseatFacts(s0, shuffled, PreFlop, t.renumbers);
      continues := t.ResetForNewHand(shuffled, PreFlop);
    }

    /**
     * `new_hand` with the board cleared along with the hole cards: a fresh
     * deck, the busted players gone, the button moved, and the hand opened
     * when at least two players remain; the board then fits the first phase.
     */
    method NewHand(shuffled: seq<Card>) returns (continues: bool)
      requires Funded(t.players) && 2 * |Kept(t.players)| <= |shuffled|
      modifies t, this`community
      ensures
        var r := Reseat(old(t.State()), shuffled, PreFlop, t.renumbers).(current := old(t.current));
        && (continues <==> |r.players| >= 2)
        && community == []
        && (continues ==> 2 * |r.players| <= |r.deck| && t.State() == Opening(r, forced) && BoardFits(t.phase, community))
        && (!continues ==> t.State() == r)
    {
      continues := Reset(shuffled);
      community := [];
      if continues {
        InitializeHand();
      }
    }

    /**
     * `new_hand` as written: everything `NewHand` does except that the
     * board of the previous hand stays on the table.
     */
    method NewHandAsWritten(shuffled: seq<Card>) returns (continues: bool)
      requires Funded(t.players) && 2 * |Kept(t.players)| <= |shuffled|
      modifies t
      ensures
        var r := Reseat(old(t.State()), shuffled, PreFlop, t.renumbers).(current := old(t.current));
        && (continues <==> |r.players| >= 2)
        && community == old(community)
        && (continues ==> 2 * |r.players| <= |r.deck| && t.State() == Opening(r, forced))
        && (!continues ==> t.State() == r)
    {
      continues := Reset(shuffled);
      if continues {
        InitializeHand();
      }
    }
  }
}
