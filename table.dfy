/**
 * The table shared by every game variant: `BasePokerGame` (game_classes.py:15-285,
 * and its blinds-era twin at app.py:344-592).
 *
 * The abstract state of a table is a `TableState` value; the `Table` class
 * holds the same fields and changes them in place as the source does, and
 * each of its methods is proved to move the table from `old(State())` to a
 * function of it. The properties of the game live in lemmas about those
 * functions: an action either is rejected and changes nothing, or keeps
 * the pot plus the players' chips constant; the turn lands on the first
 * seat that can act; a completed round stays complete; pots split so that
 * the shares add up to the pot.
 */
module PokerTable {
  import opened Wrappers
  import opened Cards
  import opened HandEvaluator
  import opened HandComparison
  import opened LowHandEvaluator

  /** The phases of both variants (`PHASES` of `HoldemGame` and `StudFollowQueenGame`). */
  datatype Phase =
    | PreFlop | Flop | Turn | River
    | ThirdStreet | FourthStreet | FifthStreet | SixthStreet | SeventhStreet
    | Showdown

  /** The action strings `player_action` recognises; any other string is `Unrecognised`. */
  datatype Action = Fold | Check | Call | Raise | AllIn | Unrecognised

  /**
   * A player's dictionary, without the lobby and display fields: `hole` is
   * used by Hold'em, `down` and `up` by Stud; `hand` is `hand_result`'s
   * `(rank, tiebreakers)` and `low` is Stud's `low_result`.
   */
  datatype Player = Player(
    id: int, chips: int, bet: int, folded: bool, allIn: bool,
    hole: seq<Card>, down: seq<Card>, up: seq<Card>,
    hand: Option<HandValue>, low: Option<LowHand>)

  datatype TableState = TableState(
    players: seq<Player>, pot: int, currentBet: int, phase: Phase,
    dealer: nat, current: nat, lastRaiser: Option<int>, roundComplete: bool,
    deck: seq<Card>)

  /** What a payout entry says about how it was won (`win_type`; the base game sets none). */
  datatype WinKind = Unlabelled | FoldWin | High | HighScoops | LowWin | Scoop

  /** One entry of the list `determine_winners` returns. */
  datatype Payout = Payout(seat: nat, amount: int, hand: Option<string>, kind: WinKind)

  function Min(a: int, b: int): (m: int)
    ensures m <= a && m <= b && (m == a || m == b)
  {
    if a <= b then a else b
  }

  /** `get_active_players`: still in the hand. */
  predicate InHand(p: Player) { !p.folded }

  /** `get_players_to_act`: neither folded nor all-in. */
  predicate CanAct(p: Player) { !p.folded && !p.allIn }

  /** The seats, in seat order, of the players `keep` selects (the list comprehensions of the source). */
  function Where(ps: seq<Player>, keep: Player -> bool): (r: seq<nat>)
    ensures |r| <= |ps|
    ensures forall k :: 0 <= k < |r| ==> r[k] < |ps| && keep(ps[r[k]])
    ensures forall i :: 0 <= i < |ps| && keep(ps[i]) ==> i in r
    ensures forall k, l :: 0 <= k < l < |r| ==> r[k] < r[l]
  {
    if ps == [] then []
    else
      var r := Where(ps[..|ps| - 1], keep);
      assert forall i :: 0 <= i < |ps| - 1 ==> ps[..|ps| - 1][i] == ps[i];
      r + (if keep(ps[|ps| - 1]) then [|ps| - 1] else [])
  }

  /** The sum of the players' stacks. */
  function TotalChips(ps: seq<Player>): int
  {
    if ps == [] then 0 else TotalChips(ps[..|ps| - 1]) + ps[|ps| - 1].chips
  }

  function Total(s: seq<int>): int
  {
    if s == [] then 0 else Total(s[..|s| - 1]) + s[|s| - 1]
  }

  /** Replacing one player changes the total by the difference of their stacks. */
  lemma {:induction false} TotalChipsUpdate(ps: seq<Player>, i: nat, q: Player)
    requires i < |ps|
    ensures TotalChips(ps[i := q]) == TotalChips(ps) - ps[i].chips + q.chips
  {
    var n := |ps|;
    if i == n - 1 {
      assert ps[i := q][..n - 1] == ps[..n - 1];
    } else {
      assert ps[i := q][..n - 1] == ps[..n - 1][i := q];
      TotalChipsUpdate(ps[..n - 1], i, q);
    }
  }

  /** Every stack and every bet is non-negative, and so is the bet to match. */
  ghost predicate Funded(ps: seq<Player>)
  {
    forall i :: 0 <= i < |ps| ==> ps[i].chips >= 0 && ps[i].bet >= 0
  }

  /** A table on which `player_action` can run: the current seat exists. */
  ghost predicate Seated(s: TableState)
  {
    s.current < |s.players| && s.currentBet >= 0 && Funded(s.players)
  }

  // ---------------------------------------------------------------------------
  // _skip_folded_players
  // ---------------------------------------------------------------------------

  /** The seat after `c` at a table of `n`, Python's `(c + 1) % n`. */
  function NextSeat(n: nat, c: nat): (r: nat)
    requires c < n
    ensures r < n
  {
    if c + 1 < n then c + 1 else 0
  }

  lemma NextSeatMod(n: nat, c: nat)
    requires c < n
    ensures NextSeat(n, c) == (c + 1) % n
  {
    ModOnce(c + 1, n);
  }

  /** The skip loop from `cur` after `attempts` moves: it stops at a seat that can act or after `|ps|` moves. */
  function SkipFrom(ps: seq<Player>, cur: nat, attempts: nat): (r: nat)
    requires cur < |ps| && attempts < |ps|
    ensures r < |ps|
    decreases |ps| - attempts
  {
    if CanAct(ps[cur]) then cur
    else if attempts + 1 >= |ps| then NextSeat(|ps|, cur)
    else SkipFrom(ps, NextSeat(|ps|, cur), attempts + 1)
  }

  function Skip(ps: seq<Player>, cur: nat): (r: nat)
    requires cur < |ps|
    ensures r < |ps|
  {
    SkipFrom(ps, cur, 0)
  }

  /** A seat whose player can act keeps the turn. */
  lemma SkipStaysOnAble(ps: seq<Player>, c: nat)
    requires c < |ps| && CanAct(ps[c])
    ensures Skip(ps, c) == c
  {
  }

  /** The seat `e` places clockwise from seat `c` at a table of `n`, that is `(c + e) % n`. */
  function Clockwise(n: nat, c: nat, e: nat): (r: nat)
    requires c < n && e <= n
    ensures r < n
  {
    if c + e < n then c + e else c + e - n
  }

  /** Python's `(x) % n` for `0 <= x < 2 * n`. */
  lemma ModOnce(x: int, n: int)
    requires 0 <= x < 2 * n
    ensures x % n == if x < n then x else x - n
  {
    if x >= n {
      assert x == 1 * n + (x - n);
    }
  }

  /** No seat from `c` onwards, up to `d` seats clockwise, can act. */
  ghost predicate NoneCanActWithin(ps: seq<Player>, c: nat, d: nat)
    requires c < |ps| && d <= |ps|
  {
    forall e :: 0 <= e < d ==> !CanAct(ps[Clockwise(|ps|, c, e)])
  }

  /** The seat `d` places clockwise from `c` is the first one there that can act. */
  ghost predicate FirstAbleAt(ps: seq<Player>, c: nat, d: nat)
    requires c < |ps|
  {
    d < |ps| && CanAct(ps[Clockwise(|ps|, c, d)]) && NoneCanActWithin(ps, c, d)
  }

  /** Where the skip loop may end: the first seat at least `a` places on that can act, or back at `c`. */
  ghost predicate LandsFrom(ps: seq<Player>, c: nat, a: nat, r: nat)
    requires c < |ps|
  {
    (exists d :: a <= d && FirstAbleAt(ps, c, d) && r == Clockwise(|ps|, c, d))
    || (NoneCanActWithin(ps, c, |ps|) && r == c)
  }

  lemma {:induction false} SkipFromLands(ps: seq<Player>, c: nat, a: nat)
    requires c < |ps| && a < |ps| && NoneCanActWithin(ps, c, a)
    ensures LandsFrom(ps, c, a, SkipFrom(ps, Clockwise(|ps|, c, a), a))
    decreases |ps| - a
  {
    var n := |ps|;
    var cur := Clockwise(n, c, a);
    var r := SkipFrom(ps, cur, a);
    if CanAct(ps[cur]) {
      assert r == cur;
      assert FirstAbleAt(ps, c, a);
    } else {
      assert NoneCanActWithin(ps, c, a + 1) by {
        forall e | 0 <= e < a + 1 ensures !CanAct(ps[Clockwise(n, c, e)]) {
          if e == a { }
        }
      }
      assert NextSeat(n, cur) == Clockwise(n, c, a + 1);
      if a + 1 >= n {
        assert r == Clockwise(n, c, a + 1);
        assert Clockwise(n, c, n) == c;
      } else {
        assert r == SkipFrom(ps, Clockwise(n, c, a + 1), a + 1);
        SkipFromLands(ps, c, a + 1);
        if d :| a + 1 <= d && FirstAbleAt(ps, c, d) && r == Clockwise(n, c, d) {
          assert a <= d;
        }
      }
    }
  }

  /**
   * `_skip_folded_players` stops on the first seat clockwise from `c` (itself
   * included) whose player can act, or, when nobody can act, gives up back
   * at `c` after going once around the table.
   */
  lemma SkipLands(ps: seq<Player>, c: nat)
    requires c < |ps|
    ensures LandsFrom(ps, c, 0, Skip(ps, c))
  {
    assert Clockwise(|ps|, c, 0) == c;
    SkipFromLands(ps, c, 0);
  }

  // ---------------------------------------------------------------------------
  // player_action
  // ---------------------------------------------------------------------------

  /** A raise's target: `amount`, or `current_bet * 2` when no amount is given (game_classes.py:158-159). */
  function RaiseTarget(s: TableState, amount: Option<int>): int
  {
    if amount.None? then s.currentBet * 2 else amount.value
  }

  /** The raise `player_action` turns down: below twice the bet to match, yet not the whole stack. */
  predicate RaiseTooSmall(s: TableState, amount: Option<int>)
    requires s.current < |s.players|
  {
    var p := s.players[s.current];
    RaiseTarget(s, amount) < s.currentBet * 2 && RaiseTarget(s, amount) < p.chips + p.bet
  }

  /** Moving `x` chips from the current player's stack into their bet, going all-in when the stack is empty. */
  function Commit(p: Player, x: int): Player
  {
    var q := p.(chips := p.chips - x, bet := p.bet + x);
    if q.chips == 0 then q.(allIn := true) else q
  }

  /** The effect of one action of the current player on the table, or `None` when it is refused. */
  function Act(s: TableState, action: Action, amount: Option<int>): Option<TableState>
    requires s.current < |s.players|
  {
    var i := s.current;
    var p := s.players[i];
    match action
    case Fold => Some(s.(players := s.players[i := p.(folded := true)]))
    case Check => if s.currentBet > p.bet then None else Some(s)
    case Call =>
      var x := Min(s.currentBet - p.bet, p.chips);
      Some(s.(players := s.players[i := Commit(p, x)], pot := s.pot + x))
    case Raise =>
      if RaiseTooSmall(s, amount) then None
      else
        var x := Min(RaiseTarget(s, amount) - p.bet, p.chips);
        Some(s.(players := s.players[i := Commit(p, x)], pot := s.pot + x,
                currentBet := p.bet + x, lastRaiser := Some(i)))
    case AllIn =>
      var q := p.(bet := p.bet + p.chips, chips := 0, allIn := true);
      if q.bet > s.currentBet then
        Some(s.(players := s.players[i := q], pot := s.pot + p.chips, currentBet := q.bet, lastRaiser := Some(i)))
      else
        Some(s.(players := s.players[i := q], pot := s.pot + p.chips))
    case Unrecognised => Some(s)
  }

  /** Exactly two actions are refused: a check facing a bet, and a raise that is too small. */
  lemma ActRefusedIff(s: TableState, action: Action, amount: Option<int>)
    requires s.current < |s.players|
    ensures Act(s, action, amount).None? <==>
      (action == Check && s.currentBet > s.players[s.current].bet) || (action == Raise && RaiseTooSmall(s, amount))
  {
  }

  /**
   * An accepted action touches only the acting player, the pot, the bet to
   * match and the last raiser: the pot plus all stacks is unchanged, stacks
   * and bets stay non-negative, and the player is all-in exactly when they
   * already were or their stack has reached zero.
   */
  lemma ActConservesChips(s: TableState, action: Action, amount: Option<int>)
    requires Seated(s) && Act(s, action, amount).Some?
    ensures
      var r := Act(s, action, amount).value;
      var i := s.current;
      && |r.players| == |s.players|
      && r.pot + TotalChips(r.players) == s.pot + TotalChips(s.players)
      && Seated(r)
      && (forall j :: 0 <= j < |s.players| && j != i ==> r.players[j] == s.players[j])
      && r.players[i].id == s.players[i].id
      && (action in {Call, Raise, AllIn} ==> r.players[i].allIn == (s.players[i].allIn || r.players[i].chips == 0))
      && r == s.(players := r.players, pot := r.pot, currentBet := r.currentBet, lastRaiser := r.lastRaiser)
  {
    ActOutcome(s, action, amount, Act(s, action, amount).value);
  }

  /** `ActConservesChips`, stated of the outcome `r` itself. */
  lemma ActOutcome(s: TableState, action: Action, amount: Option<int>, r: TableState)
    requires Seated(s) && Act(s, action, amount) == Some(r)
    ensures |r.players| == |s.players|
    ensures r.pot + TotalChips(r.players) == s.pot + TotalChips(s.players)
    ensures Seated(r)
    ensures forall j :: 0 <= j < |s.players| && j != s.current ==> r.players[j] == s.players[j]
    ensures r.players[s.current].id == s.players[s.current].id
    ensures action in {Call, Raise, AllIn} ==> r.players[s.current].allIn == (s.players[s.current].allIn || r.players[s.current].chips == 0)
    ensures r == s.(players := r.players, pot := r.pot, currentBet := r.currentBet, lastRaiser := r.lastRaiser)
  {
    var i := s.current;
    var p := s.players[i];
    match action
    case Fold => SeatMoves(s, r, p.(folded := true), 0);
    case Check =>
      assert s.players[i := p] == s.players;
      SeatMoves(s, r, p, 0);
    case Call => SeatMoves(s, r, Commit(p, Min(s.currentBet - p.bet, p.chips)), Min(s.currentBet - p.bet, p.chips));
    case Raise =>
      assert RaiseTarget(s, amount) >= 0;
      SeatMoves(s, r, Commit(p, Min(RaiseTarget(s, amount) - p.bet, p.chips)), Min(RaiseTarget(s, amount) - p.bet, p.chips));
    case AllIn => SeatMoves(s, r, p.(bet := p.bet + p.chips, chips := 0, allIn := true), p.chips);
    case Unrecognised =>
      assert s.players[i := p] == s.players;
      SeatMoves(s, r, p, 0);
  }

  /** The current seat replaced by `q`, `x` chips moved from its stack into the pot, and a bet to match kept non-negative. */
  lemma SeatMoves(s: TableState, r: TableState, q: Player, x: int)
    requires Seated(s)
    requires q.chips == s.players[s.current].chips - x && q.chips >= 0 && q.bet >= 0
    requires r.players == s.players[s.current := q] && r.pot == s.pot + x && r.currentBet >= 0
    ensures |r.players| == |s.players| && Seated(r.(current := s.current))
    ensures r.pot + TotalChips(r.players) == s.pot + TotalChips(s.players)
    ensures forall j :: 0 <= j < |s.players| && j != s.current ==> r.players[j] == s.players[j]
    ensures r.players[s.current] == q
  {
    TotalChipsUpdate(s.players, s.current, q);
  }

  /**
   * How many chips each action moves into the pot, and what it does to the
   * bet to match: a call moves min(bet to match − bet, stack); a raise moves
   * min(target − bet, stack) and always sets the bet to match to the
   * player's new bet; all-in moves the whole stack and raises the bet to
   * match only when it exceeds it.
   */
  lemma ActMovesChips(s: TableState, action: Action, amount: Option<int>)
    requires s.current < |s.players| && Act(s, action, amount).Some?
    ensures
      var r := Act(s, action, amount).value;
      var p := s.players[s.current];
      && (action == Call ==> r.pot - s.pot == Min(s.currentBet - p.bet, p.chips) && r.currentBet == s.currentBet)
      && (action == Raise ==>
            && r.pot - s.pot == Min(RaiseTarget(s, amount) - p.bet, p.chips)
            && r.currentBet == r.players[s.current].bet
            && r.lastRaiser == Some(s.current))
      && (action == AllIn ==>
            && r.pot - s.pot == p.chips && r.players[s.current].chips == 0
            && (r.currentBet, r.lastRaiser) ==
               (if p.bet + p.chips > s.currentBet then (p.bet + p.chips, Some(s.current)) else (s.currentBet, s.lastRaiser)))
      && (action in {Fold, Check, Unrecognised} ==> r.pot == s.pot && r.currentBet == s.currentBet)
  {
  }

  /**
   * A raise the player cannot cover is accepted (the target is not below
   * the whole stack) and then LOWERS the bet to match to what the player
   * could put in: facing a bet of 100 with 50 chips, "raise to 200" leaves
   * the bet to match at 50.
   */
  lemma ShortRaiseLowersBet(s: TableState)
    requires |s.players| == 1 && s.current == 0 && s.currentBet == 100
    requires s.players[0].chips == 50 && s.players[0].bet == 0
    ensures Act(s, Raise, Some(200)).Some?
    ensures Act(s, Raise, Some(200)).value.currentBet == 50 < s.currentBet
  {
  }

  // ---------------------------------------------------------------------------
  // _check_round_complete
  // ---------------------------------------------------------------------------

  /** Every player has matched the bet, folded or gone all-in. */
  predicate AllMatched(ps: seq<Player>, currentBet: int)
  {
    forall i :: 0 <= i < |ps| ==> ps[i].bet == currentBet || ps[i].folded || ps[i].allIn
  }

  function Complete(s: TableState): TableState
  {
    if |Where(s.players, InHand)| == 1 then s.(roundComplete := true, phase := Showdown)
    else if |Where(s.players, CanAct)| == 0 then s.(roundComplete := true)
    else if AllMatched(s.players, s.currentBet) && s.lastRaiser == Some(s.current) then s.(roundComplete := true)
    else s
  }

  /**
   * The round is complete afterwards exactly when it already was, or one
   * player is left, or nobody can act, or everybody has matched and the
   * turn is back at the last raiser; a lone player moves the hand to the
   * showdown. A complete round is never made incomplete again.
   */
  lemma CompleteFacts(s: TableState)
    ensures
      var r := Complete(s);
      var lone := |Where(s.players, InHand)| == 1;
      && (r.roundComplete <==>
            || s.roundComplete || lone || |Where(s.players, CanAct)| == 0
            || (AllMatched(s.players, s.currentBet) && s.lastRaiser == Some(s.current)))
      && (s.roundComplete ==> r.roundComplete)
      && r.phase == (if lone then Showdown else s.phase)
      && r == s.(roundComplete := r.roundComplete, phase := r.phase)
  {
  }

  /** After an accepted action: the turn passes to the next seat and on past those who cannot act, then the round is checked. */
  function Advance(s: TableState): TableState
    requires s.current < |s.players|
  {
    var next := Skip(s.players, (s.current + 1) % |s.players|);
    Complete(s.(current := next))
  }

  /** Advancing is completing the round check on the table whose turn has moved on. */
  lemma AdvanceThenComplete(s: TableState, moved: TableState)
    requires s.current < |s.players|
    requires moved == s.(current := Skip(s.players, (s.current + 1) % |s.players|))
    ensures Advance(s) == Complete(moved)
  {
  }

  /** Moving the turn on changes only whose turn it is, the phase and whether the round is complete. */
  lemma AdvanceFacts(s: TableState)
    requires Seated(s)
    ensures
      var r := Advance(s);
      && Seated(r)
      && r == s.(current := r.current, phase := r.phase, roundComplete := r.roundComplete)
      && r.current == Skip(s.players, (s.current + 1) % |s.players|)
      && (s.roundComplete ==> r.roundComplete)
  {
    var next := Skip(s.players, (s.current + 1) % |s.players|);
    CompleteFacts(s.(current := next));
  }

  /** `player_action`: the new table and whether the action was accepted. */
  function Respond(s: TableState, action: Action, amount: Option<int>): (TableState, bool)
    requires s.current < |s.players|
  {
    match Act(s, action, amount)
    case None => (s, false)
    case Some(s1) => (Advance(s1), true)
  }

  /**
   * A refused action leaves every field as it was, the current player
   * included. An accepted one keeps the pot plus all stacks constant, keeps
   * the table seated, moves the turn to the next seat and on to the first
   * player there who can act, and never un-completes the round.
   */
  lemma RespondFacts(s: TableState, action: Action, amount: Option<int>)
    requires Seated(s)
    ensures Respond(s, action, amount).1 <==> Act(s, action, amount).Some?
    ensures !Respond(s, action, amount).1 ==> Respond(s, action, amount).0 == s
    ensures
      var r := Respond(s, action, amount).0;
      Respond(s, action, amount).1 ==>
        && Seated(r) && |r.players| == |s.players|
        && r.pot + TotalChips(r.players) == s.pot + TotalChips(s.players)
        && r.current == Skip(r.players, (s.current + 1) % |s.players|)
        && (s.roundComplete ==> r.roundComplete)
        && r.deck == s.deck && r.dealer == s.dealer
  {
    var a := Act(s, action, amount);
    if a.Some? {
      AcceptedFacts(s, action, amount);
      RespondAccepted(s, action, amount);
    } else {
      assert Respond(s, action, amount) == (s, false);
    }
  }

  /** An accepted action is answered by the move to the next player. */
  lemma RespondAccepted(s: TableState, action: Action, amount: Option<int>)
    requires Seated(s) && Act(s, action, amount).Some?
    ensures Seated(Act(s, action, amount).value)
    ensures Respond(s, action, amount) == (Advance(Act(s, action, amount).value), true)
  {
    ActConservesChips(s, action, amount);
  }

  /** An accepted action followed by the move to the next player. */
  lemma AcceptedFacts(s: TableState, action: Action, amount: Option<int>)
    requires Seated(s) && Act(s, action, amount).Some?
    ensures
      var r := Advance(Act(s, action, amount).value);
      && Seated(r) && |r.players| == |s.players|
      && r.pot + TotalChips(r.players) == s.pot + TotalChips(s.players)
      && r.current == Skip(r.players, (s.current + 1) % |s.players|)
      && (s.roundComplete ==> r.roundComplete)
      && r.deck == s.deck && r.dealer == s.dealer
  {
    ActConservesChips(s, action, amount);
    AdvanceAfter(s, Act(s, action, amount).value);
  }

  /** The move to the next player after a step that kept the seats, the chips and the turn. */
  lemma AdvanceAfter(s: TableState, s1: TableState)
    requires Seated(s) && Seated(s1) && |s1.players| == |s.players|
    requires s1.pot + TotalChips(s1.players) == s.pot + TotalChips(s.players)
    requires s1 == s.(players := s1.players, pot := s1.pot, currentBet := s1.currentBet, lastRaiser := s1.lastRaiser)
    ensures
      var r := Advance(s1);
      && Seated(r) && |r.players| == |s.players|
      && r.pot + TotalChips(r.players) == s.pot + TotalChips(s.players)
      && r.current == Skip(r.players, (s.current + 1) % |s.players|)
      && (s.roundComplete ==> r.roundComplete)
      && r.deck == s.deck && r.dealer == s.dealer
  {
    AdvanceFacts(s1);
  }

  // ---------------------------------------------------------------------------
  // determine_winners: splitting a pot
  // ---------------------------------------------------------------------------

  /** `share = pot // k`, `remainder = pot % k`, and the first `remainder` winners get one chip more. */
  function Shares(total: int, k: nat): (r: seq<int>)
    requires k >= 1
    ensures |r| == k
  {
    seq(k, i requires 0 <= i < k => total / k + (if i < total % k then 1 else 0))
  }

  lemma {:induction false} SharesPrefix(total: int, k: nat, j: nat)
    requires 1 <= k && j <= k
    ensures Total(Shares(total, k)[..j]) == j * (total / k) + (if j < total % k then j else total % k)
  {
    if j > 0 {
      var s := Shares(total, k);
      assert s[..j][..j - 1] == s[..j - 1];
      SharesPrefix(total, k, j - 1);
      assert j * (total / k) == (j - 1) * (total / k) + total / k;
    }
  }

  /** All `k` shares, taken as a prefix, add up to the pot. */
  lemma SharesAll(total: int, k: nat)
    requires k >= 1
    ensures Total(Shares(total, k)[..k]) == total
  {
    SharesPrefix(total, k, k);
  }

  /**
   * The shares add up to the pot, differ by at most one chip, and the
   * larger shares come first.
   */
  lemma SharesSplitPot(total: int, k: nat)
    requires k >= 1
    ensures Total(Shares(total, k)) == total
    ensures forall i :: 0 <= i < k ==> Shares(total, k)[i] == total / k || Shares(total, k)[i] == total / k + 1
    ensures forall i, j :: 0 <= i < j < k ==> Shares(total, k)[i] >= Shares(total, k)[j]
  {
    SharesPrefix(total, k, k);
    assert Shares(total, k)[..k] == Shares(total, k);
  }

  /** Adding `amounts[i]` to the stack of seat `seats[i]`, in order. */
  function Credit(ps: seq<Player>, seats: seq<nat>, amounts: seq<int>): (r: seq<Player>)
    requires |seats| == |amounts|
    requires forall k :: 0 <= k < |seats| ==> seats[k] < |ps|
    ensures |r| == |ps|
  {
    if seats == [] then ps
    else
      var n := |seats|;
      var q := Credit(ps, seats[..n - 1], amounts[..n - 1]);
      q[seats[n - 1] := q[seats[n - 1]].(chips := q[seats[n - 1]].chips + amounts[n - 1])]
  }

  /** Crediting adds exactly the credited amounts to the chips on the table. */
  lemma {:induction false} CreditAddsUp(ps: seq<Player>, seats: seq<nat>, amounts: seq<int>)
    requires |seats| == |amounts|
    requires forall k :: 0 <= k < |seats| ==> seats[k] < |ps|
    ensures TotalChips(Credit(ps, seats, amounts)) == TotalChips(ps) + Total(amounts)
  {
    if seats != [] {
      var n := |seats|;
      CreditAddsUp(ps, seats[..n - 1], amounts[..n - 1]);
      var q := Credit(ps, seats[..n - 1], amounts[..n - 1]);
      var p := q[seats[n - 1]].(chips := q[seats[n - 1]].chips + amounts[n - 1]);
      assert Credit(ps, seats, amounts) == q[seats[n - 1] := p];
      TotalChipsUpdate(q, seats[n - 1], p);
      assert Total(amounts) == Total(amounts[..n - 1]) + amounts[n - 1];
    }
  }

  /** Crediting changes nothing but the stacks of the credited seats. */
  lemma {:induction false} CreditOnlyStacks(ps: seq<Player>, seats: seq<nat>, amounts: seq<int>)
    requires |seats| == |amounts|
    requires forall k :: 0 <= k < |seats| ==> seats[k] < |ps|
    ensures forall i :: 0 <= i < |ps| && i !in seats ==> Credit(ps, seats, amounts)[i] == ps[i]
    ensures forall i :: 0 <= i < |ps| ==> Credit(ps, seats, amounts)[i] == ps[i].(chips := Credit(ps, seats, amounts)[i].chips)
  {
    if seats != [] {
      var n := |seats|;
      CreditOnlyStacks(ps, seats[..n - 1], amounts[..n - 1]);
    }
  }

  /** Paying whole pots to the winners: with the shares of `Shares`, the table gains exactly the pot. */
  lemma SplitPaysPot(ps: seq<Player>, winners: seq<nat>, total: int)
    requires |winners| >= 1 && forall k :: 0 <= k < |winners| ==> winners[k] < |ps|
    ensures TotalChips(Credit(ps, winners, Shares(total, |winners|))) == TotalChips(ps) + total
  {
    CreditAddsUp(ps, winners, Shares(total, |winners|));
    SharesSplitPot(total, |winners|);
  }

  /** The result entries of a split, in the winners' order. */
  function SplitPayouts(winners: seq<nat>, amounts: seq<int>, names: seq<Option<string>>, kind: WinKind): (r: seq<Payout>)
    requires |winners| == |amounts| == |names|
    ensures |r| == |winners|
    ensures forall k :: 0 <= k < |r| ==> r[k] == Payout(winners[k], amounts[k], names[k], kind)
  {
    seq(|winners|, k requires 0 <= k < |winners| => Payout(winners[k], amounts[k], names[k], kind))
  }

  /** One winner more appends that winner's entry. */
  lemma SplitPayoutsNext(winners: seq<nat>, amounts: seq<int>, names: seq<Option<string>>, kind: WinKind, i: nat)
    requires |winners| == |amounts| == |names| && i < |winners|
    ensures SplitPayouts(winners[..i + 1], amounts[..i + 1], names[..i + 1], kind) ==
      SplitPayouts(winners[..i], amounts[..i], names[..i], kind) + [Payout(winners[i], amounts[i], names[i], kind)]
  {
    var a := SplitPayouts(winners[..i + 1], amounts[..i + 1], names[..i + 1], kind);
    var b := SplitPayouts(winners[..i], amounts[..i], names[..i], kind) + [Payout(winners[i], amounts[i], names[i], kind)];
    assert |a| == |b|;
    forall k | 0 <= k < |a| ensures a[k] == b[k] {
      if k < i {
        assert winners[..i + 1][k] == winners[..i][k];
      }
    }
  }

  // ---------------------------------------------------------------------------
  // determine_winners: finding the best hand(s)
  // ---------------------------------------------------------------------------

  /**
   * The scan of `determine_winners` over candidates `vals` (belonging to
   * seats `seats`) with comparison `cmp`: the index of the best value so
   * far (-1 before the first) and the seats tied with it, in order.
   */
  function Leaders<T>(seats: seq<nat>, vals: seq<T>, cmp: (T, T) -> int, n: nat): (r: (int, seq<nat>))
    requires |seats| == |vals| && n <= |vals|
    ensures n == 0 <==> r.0 == -1
    ensures -1 <= r.0 < n
  {
    if n == 0 then (-1, [])
    else
      var (b, w) := Leaders(seats, vals, cmp, n - 1);
      if b == -1 then (n - 1, [seats[n - 1]])
      else
        var c := cmp(vals[n - 1], vals[b]);
        if c > 0 then (n - 1, [seats[n - 1]])
        else if c == 0 then (b, w + [seats[n - 1]])
        else (b, w)
  }

  /** Once there is a candidate there is a leader, and the leaders are some of the candidates' seats. */
  lemma {:induction false} LeadersAmongSeats<T>(seats: seq<nat>, vals: seq<T>, cmp: (T, T) -> int, n: nat)
    requires |seats| == |vals| && n <= |vals|
    ensures n >= 1 ==> |Leaders(seats, vals, cmp, n).1| >= 1
    ensures forall k :: 0 <= k < |Leaders(seats, vals, cmp, n).1| ==> Leaders(seats, vals, cmp, n).1[k] in seats
  {
    if n > 0 {
      LeadersAmongSeats(seats, vals, cmp, n - 1);
    }
  }

  /** The seats are listed in increasing order, so none twice. */
  ghost predicate Increasing(s: seq<nat>)
  {
    forall k, l :: 0 <= k < l < |s| ==> s[k] < s[l]
  }

  /** The scan keeps the order of the candidates' seats: over increasing seats it picks increasing seats. */
  lemma {:induction false} LeadersIncreasing<T>(seats: seq<nat>, vals: seq<T>, cmp: (T, T) -> int, n: nat)
    requires |seats| == |vals| && n <= |vals| && Increasing(seats)
    ensures Increasing(Leaders(seats, vals, cmp, n).1)
    ensures n >= 1 ==> forall k :: 0 <= k < |Leaders(seats, vals, cmp, n).1| ==> Leaders(seats, vals, cmp, n).1[k] <= seats[n - 1]
  {
    if n > 1 {
      LeadersIncreasing(seats, vals, cmp, n - 1);
    }
  }

  /** The seats among the first `n` candidates whose value ties with `x`, in order. */
  function TiedWith<T>(seats: seq<nat>, vals: seq<T>, cmp: (T, T) -> int, x: T, n: nat): seq<nat>
    requires |seats| == |vals| && n <= |vals|
  {
    if n == 0 then []
    else TiedWith(seats, vals, cmp, x, n - 1) + (if cmp(vals[n - 1], x) == 0 then [seats[n - 1]] else [])
  }

  /** Seat `s` is one of the first `n` candidates and its value ties with `x`. */
  ghost predicate TiesAmong<T>(seats: seq<nat>, vals: seq<T>, cmp: (T, T) -> int, x: T, n: nat, s: nat)
    requires |seats| == |vals| && n <= |vals|
  {
    exists k :: 0 <= k < n && s == seats[k] && cmp(vals[k], x) == 0
  }

  /** The tied seats are exactly the candidates whose value ties with `x`. */
  lemma {:induction false} TiedWithSays<T>(seats: seq<nat>, vals: seq<T>, cmp: (T, T) -> int, x: T, n: nat)
    requires |seats| == |vals| && n <= |vals|
    ensures forall i :: 0 <= i < |TiedWith(seats, vals, cmp, x, n)| ==>
      TiesAmong(seats, vals, cmp, x, n, TiedWith(seats, vals, cmp, x, n)[i])
    ensures forall k :: 0 <= k < n && cmp(vals[k], x) == 0 ==> seats[k] in TiedWith(seats, vals, cmp, x, n)
  {
    if n > 0 {
      TiedWithSays(seats, vals, cmp, x, n - 1);
      var t := TiedWith(seats, vals, cmp, x, n - 1);
      var e: seq<nat> := if cmp(vals[n - 1], x) == 0 then [seats[n - 1]] else [];
      var r := TiedWith(seats, vals, cmp, x, n);
      assert r == t + e;
      forall i | 0 <= i < |r| ensures TiesAmong(seats, vals, cmp, x, n, r[i]) {
        if i < |t| {
          var k :| 0 <= k < n - 1 && t[i] == seats[k] && cmp(vals[k], x) == 0;
          assert (t + e)[i] == seats[k];
        } else {
          assert (t + e)[i] == seats[n - 1] && cmp(vals[n - 1], x) == 0;
        }
      }
      forall k | 0 <= k < n && cmp(vals[k], x) == 0 ensures seats[k] in t + e {
        if k < n - 1 {
          assert seats[k] in t;
        } else {
          assert seats[k] in e;
        }
      }
    }
  }

  /** `cmp` orders `vs`: swapping the arguments negates it and "at least as good" is transitive. */
  ghost predicate Ranking<T(!new)>(cmp: (T, T) -> int, vs: seq<T>)
  {
    && (forall i, j :: 0 <= i < |vs| && 0 <= j < |vs| ==> cmp(vs[j], vs[i]) == -cmp(vs[i], vs[j]))
    && (forall i, j, k :: 0 <= i < |vs| && 0 <= j < |vs| && 0 <= k < |vs| && cmp(vs[i], vs[j]) >= 0 && cmp(vs[j], vs[k]) >= 0 ==>
          cmp(vs[i], vs[k]) >= 0)
  }

  lemma {:induction false} NoneTied<T>(seats: seq<nat>, vals: seq<T>, cmp: (T, T) -> int, x: T, n: nat)
    requires |seats| == |vals| && n <= |vals|
    requires forall j :: 0 <= j < n ==> cmp(vals[j], x) != 0
    ensures TiedWith(seats, vals, cmp, x, n) == []
  {
    if n > 0 {
      NoneTied(seats, vals, cmp, x, n - 1);
    }
  }

  /** Candidate `b` is at least as good as each of the first `n`, and `w` are the seats tied with it, in order. */
  ghost predicate BestOf<T>(seats: seq<nat>, vals: seq<T>, cmp: (T, T) -> int, b: int, w: seq<nat>, n: nat)
    requires |seats| == |vals| && n <= |vals|
  {
    && 0 <= b < n
    && (forall j :: 0 <= j < n ==> cmp(vals[b], vals[j]) >= 0)
    && w == TiedWith(seats, vals, cmp, vals[b], n)
  }

  lemma NewLeader<T(!new)>(seats: seq<nat>, vals: seq<T>, cmp: (T, T) -> int, b: int, w: seq<nat>, n: nat)
    requires |seats| == |vals| && 0 < n <= |vals| && Ranking(cmp, vals)
    requires BestOf(seats, vals, cmp, b, w, n - 1) && cmp(vals[n - 1], vals[b]) > 0
    ensures BestOf(seats, vals, cmp, n - 1, [seats[n - 1]], n)
  {
    var v := vals[n - 1];
    assert cmp(v, v) == 0;
    forall j | 0 <= j < n - 1 ensures cmp(v, vals[j]) > 0 {
      var vb, vj := vals[b], vals[j];
      assert cmp(vb, vj) >= 0;
      assert cmp(vj, v) >= 0 ==> cmp(vb, v) >= 0;
    }
    NoneTied(seats, vals, cmp, v, n - 1);
  }

  lemma TiedLeader<T(!new)>(seats: seq<nat>, vals: seq<T>, cmp: (T, T) -> int, b: int, w: seq<nat>, n: nat)
    requires |seats| == |vals| && 0 < n <= |vals| && Ranking(cmp, vals)
    requires BestOf(seats, vals, cmp, b, w, n - 1) && cmp(vals[n - 1], vals[b]) == 0
    ensures BestOf(seats, vals, cmp, b, w + [seats[n - 1]], n)
  {
    assert cmp(vals[b], vals[n - 1]) == 0;
  }

  lemma KeptLeader<T(!new)>(seats: seq<nat>, vals: seq<T>, cmp: (T, T) -> int, b: int, w: seq<nat>, n: nat)
    requires |seats| == |vals| && 0 < n <= |vals| && Ranking(cmp, vals)
    requires BestOf(seats, vals, cmp, b, w, n - 1) && cmp(vals[n - 1], vals[b]) < 0
    ensures BestOf(seats, vals, cmp, b, w, n)
  {
    assert cmp(vals[b], vals[n - 1]) > 0;
  }

  /** The first candidate leads alone. */
  lemma FirstLeader<T(!new)>(seats: seq<nat>, vals: seq<T>, cmp: (T, T) -> int)
    requires |seats| == |vals| && 0 < |vals| && Ranking(cmp, vals)
    ensures BestOf(seats, vals, cmp, 0, [seats[0]], 1)
  {
    assert cmp(vals[0], vals[0]) == 0;
    assert TiedWith(seats, vals, cmp, vals[0], 0) == [];
  }

  /** One more step of the scan keeps its result a best candidate with its ties. */
  lemma LeaderStep<T(!new)>(seats: seq<nat>, vals: seq<T>, cmp: (T, T) -> int, n: nat)
    requires |seats| == |vals| && 0 < n <= |vals| && Ranking(cmp, vals)
    requires n > 1 ==> BestOf(seats, vals, cmp, Leaders(seats, vals, cmp, n - 1).0, Leaders(seats, vals, cmp, n - 1).1, n - 1)
    ensures BestOf(seats, vals, cmp, Leaders(seats, vals, cmp, n).0, Leaders(seats, vals, cmp, n).1, n)
  {
    var r := Leaders(seats, vals, cmp, n - 1);
    var b, w := r.0, r.1;
    if b == -1 {
      FirstLeader(seats, vals, cmp);
    } else {
      var c := cmp(vals[n - 1], vals[b]);
      if c > 0 {
        NewLeader(seats, vals, cmp, b, w, n);
      } else if c == 0 {
        TiedLeader(seats, vals, cmp, b, w, n);
      } else {
        KeptLeader(seats, vals, cmp, b, w, n);
      }
    }
  }

  /**
   * The scan finds a best candidate — at least as good as every other — and
   * returns, in seat order, exactly the seats whose value ties with it.
   */
  lemma {:induction false} LeadersAreBest<T(!new)>(seats: seq<nat>, vals: seq<T>, cmp: (T, T) -> int, n: nat)
    requires |seats| == |vals| && n <= |vals| && Ranking(cmp, vals)
    ensures n > 0 ==> BestOf(seats, vals, cmp, Leaders(seats, vals, cmp, n).0, Leaders(seats, vals, cmp, n).1, n)
  {
    if n > 0 {
      LeadersAreBest(seats, vals, cmp, n - 1);
      LeaderStep(seats, vals, cmp, n);
    }
  }

  /** Comparing well-formed hand values with `compare_hands` is a ranking. */
  lemma HandsRanked(vs: seq<HandValue>)
    requires forall i :: 0 <= i < |vs| ==> WellFormed(vs[i])
    ensures Ranking(CompareHands, vs)
  {
    forall i, j | 0 <= i < |vs| && 0 <= j < |vs| ensures CompareHands(vs[j], vs[i]) == -CompareHands(vs[i], vs[j]) {
      CompareHandsAntisymmetric(vs[i], vs[j]);
    }
    forall i, j, k | 0 <= i < |vs| && 0 <= j < |vs| && 0 <= k < |vs| && CompareHands(vs[i], vs[j]) >= 0 && CompareHands(vs[j], vs[k]) >= 0
      ensures CompareHands(vs[i], vs[k]) >= 0
    {
      NotBeatenSays(vs[i], vs[j]);
      NotBeatenSays(vs[j], vs[k]);
      NotBeatenSays(vs[i], vs[k]);
      NotBeatenTransitive(vs[k], vs[j], vs[i]);
    }
  }

  /** `compare_hands(a, b) >= 0` says that `b` does not beat `a`. */
  lemma NotBeatenSays(a: HandValue, b: HandValue)
    requires WellFormed(a) && WellFormed(b)
    ensures CompareHands(a, b) >= 0 <==> !Beats(b, a)
  {
    CompareHandsAntisymmetric(a, b);
    BeatsIffCompareHandsWins(b, a);
  }

  /** Comparing qualifying lows with `compare_low_hands` is a ranking. */
  lemma LowsRanked(vs: seq<LowResult>)
    requires forall i :: 0 <= i < |vs| ==> vs[i].qualifies
    ensures Ranking(CompareLowHands, vs)
  {
    forall i, j | 0 <= i < |vs| && 0 <= j < |vs| ensures CompareLowHands(vs[j], vs[i]) == -CompareLowHands(vs[i], vs[j]) {
      CompareLowHandsOrder(vs[i], vs[j]);
    }
    forall i, j, k | 0 <= i < |vs| && 0 <= j < |vs| && 0 <= k < |vs| && CompareLowHands(vs[i], vs[j]) >= 0 && CompareLowHands(vs[j], vs[k]) >= 0
      ensures CompareLowHands(vs[i], vs[k]) >= 0
    {
      LowsChain(vs[i], vs[j], vs[k]);
    }
  }

  lemma LowsChain(a: LowResult, b: LowResult, c: LowResult)
    requires a.qualifies && b.qualifies && c.qualifies
    requires CompareLowHands(a, b) >= 0 && CompareLowHands(b, c) >= 0
    ensures CompareLowHands(a, c) >= 0
  {
    CompareLowHandsOrder(a, b);
    CompareLowHandsOrder(b, c);
    CompareLowHandsOrder(a, c);
    ListGreaterTotal(a.values, b.values);
    if ListGreater(b.values, a.values) && ListGreater(a.values, c.values) {
      ListGreaterTransitive(b.values, a.values, c.values);
    }
  }

  // ---------------------------------------------------------------------------
  // new_hand
  // ---------------------------------------------------------------------------

  /** A player's per-hand fields cleared for a new hand (`low` is left as it was, as in the source). */
  function Fresh(p: Player): Player
  {
    p.(bet := 0, folded := false, allIn := false, hand := None, hole := [], down := [], up := [])
  }

  /** `[p for p in players if p['chips'] > 0]`. */
  function Kept(ps: seq<Player>): (r: seq<Player>)
    ensures |r| <= |ps|
  {
    if ps == [] then []
    else Kept(ps[..|ps| - 1]) + (if ps[|ps| - 1].chips > 0 then [ps[|ps| - 1]] else [])
  }

  /** Seats numbered from zero again (game_classes.py:97-104). */
  function Renumbered(ps: seq<Player>): (r: seq<Player>)
    ensures |r| == |ps|
  {
    seq(|ps|, i requires 0 <= i < |ps| => ps[i].(id := i))
  }

  /** Dropping busted players keeps exactly the players with chips, in their order and with their ids. */
  lemma {:induction false} KeptMembers(ps: seq<Player>)
    ensures forall i :: 0 <= i < |Kept(ps)| ==> Kept(ps)[i].chips > 0
    ensures forall p :: p in Kept(ps) <==> p in ps && p.chips > 0
  {
    if ps != [] {
      var n := |ps|;
      KeptMembers(ps[..n - 1]);
      assert ps == ps[..n - 1] + [ps[n - 1]];
    }
  }

  /** When no stack is negative, dropping busted players loses no chips. */
  lemma {:induction false} KeptTotal(ps: seq<Player>)
    requires forall i :: 0 <= i < |ps| ==> ps[i].chips >= 0
    ensures TotalChips(Kept(ps)) == TotalChips(ps)
  {
    if ps != [] {
      var n := |ps|;
      KeptTotal(ps[..n - 1]);
      var k := Kept(ps[..n - 1]);
      if ps[n - 1].chips > 0 {
        assert (k + [ps[n - 1]])[..|k|] == k;
      } else {
        assert k + [] == k;
      }
    }
  }

  /** Every player with the per-hand fields cleared. */
  function Cleared(ps: seq<Player>): (r: seq<Player>)
    ensures |r| == |ps| && forall i :: 0 <= i < |ps| ==> r[i] == Fresh(ps[i])
  {
    seq(|ps|, i requires 0 <= i < |ps| => Fresh(ps[i]))
  }

  /** The players left after the common part of `new_hand`. */
  function Remaining(ps: seq<Player>, renumbers: bool): seq<Player>
  {
    if renumbers then Renumbered(Kept(Cleared(ps))) else Kept(Cleared(ps))
  }

  /** The table after the common part of `new_hand`, before the variant deals. */
  function Reseat(s: TableState, deck: seq<Card>, first: Phase, renumbers: bool): TableState
  {
    var ps := Remaining(s.players, renumbers);
    s.(players := ps, deck := deck, pot := 0, currentBet := 0, phase := first,
       lastRaiser := None, roundComplete := false,
       dealer := if |ps| < 2 then s.dealer else (s.dealer + 1) % |ps|)
  }

  /** The fields of the table `Reseat` builds. */
  lemma ReseatFields(s: TableState, deck: seq<Card>, first: Phase, renumbers: bool)
    ensures
      var ps := Remaining(s.players, renumbers);
      Reseat(s, deck, first, renumbers) ==
        TableState(ps, 0, 0, first, if |ps| < 2 then s.dealer else (s.dealer + 1) % |ps|, s.current, None, false, deck)
  {
  }

  /** `new_hand` loses no chips, and as many players remain as had chips. */
  lemma RemainingKeepsChips(ps: seq<Player>, renumbers: bool)
    requires Funded(ps)
    ensures TotalChips(Remaining(ps, renumbers)) == TotalChips(ps)
    ensures |Remaining(ps, renumbers)| == |Kept(ps)|
  {
    FreshKeepsChips(ps);
    KeptTotal(Cleared(ps));
    KeptSameChips(ps);
    TotalChipsRenumbered(Kept(Cleared(ps)));
  }

  /**
   * Every remaining player has chips and starts the hand with no bet, not
   * folded and not all-in; the newer version numbers the seats from zero,
   * the older one keeps each player's id.
   */
  lemma RemainingSeats(ps: seq<Player>, renumbers: bool)
    ensures
      var r := Remaining(ps, renumbers);
      && (forall i :: 0 <= i < |r| ==> r[i].chips > 0 && r[i].bet == 0 && !r[i].folded && !r[i].allIn)
      && (renumbers ==> forall i :: 0 <= i < |r| ==> r[i].id == i)
      && (!renumbers ==> forall i :: 0 <= i < |r| ==> exists j :: 0 <= j < |ps| && r[i].id == ps[j].id)
  {
    var cleared := Cleared(ps);
    KeptMembers(cleared);
    var kept := Kept(cleared);
    forall i | 0 <= i < |kept|
      ensures kept[i].bet == 0 && !kept[i].folded && !kept[i].allIn
      ensures exists j :: 0 <= j < |ps| && kept[i].id == ps[j].id
    {
      assert kept[i] in cleared;
      var j :| 0 <= j < |cleared| && cleared[j] == kept[i];
      assert kept[i].id == ps[j].id;
    }
  }

  /**
   * `new_hand` empties the pot, clears the bet to match and the round, takes
   * the new deck, and moves the dealer button one seat on, modulo the new
   * number of players.
   */
  lemma ReseatFacts(s: TableState, deck: seq<Card>, first: Phase, renumbers: bool)
    requires Funded(s.players)
    ensures
      var r := Reseat(s, deck, first, renumbers);
      && r.pot == 0 && r.currentBet == 0 && !r.roundComplete && r.deck == deck && r.phase == first
      && TotalChips(r.players) == TotalChips(s.players)
      && Funded(r.players)
      && (|r.players| >= 2 ==> r.dealer == (s.dealer + 1) % |r.players|)
  {
    RemainingKeepsChips(s.players, renumbers);
    RemainingSeats(s.players, renumbers);
  }

  lemma {:induction false} FreshKeepsChips(ps: seq<Player>)
    ensures TotalChips(Cleared(ps)) == TotalChips(ps)
  {
    if ps != [] {
      var n := |ps|;
      assert Cleared(ps)[..n - 1] == Cleared(ps[..n - 1]);
      FreshKeepsChips(ps[..n - 1]);
    }
  }

  lemma {:induction false} KeptSameChips(ps: seq<Player>)
    ensures |Kept(Cleared(ps))| == |Kept(ps)|
  {
    if ps != [] {
      var n := |ps|;
      assert Cleared(ps)[..n - 1] == Cleared(ps[..n - 1]);
      KeptSameChips(ps[..n - 1]);
    }
  }

  lemma {:induction false} TotalChipsRenumbered(ps: seq<Player>)
    ensures TotalChips(Renumbered(ps)) == TotalChips(ps)
  {
    if ps != [] {
      var n := |ps|;
      assert Renumbered(ps)[..n - 1] == Renumbered(ps[..n - 1]);
      TotalChipsRenumbered(ps[..n - 1]);
    }
  }

  // ---------------------------------------------------------------------------
  // Dealing and opening a betting round
  // ---------------------------------------------------------------------------

  /** Where a dealt card goes: Hold'em hole cards, or Stud down or up cards. */
  datatype Slot = Hole | Down | Up

  function Give(p: Player, c: Card, slot: Slot): Player
  {
    match slot
    case Hole => p.(hole := p.hole + [c])
    case Down => p.(down := p.down + [c])
    case Up => p.(up := p.up + [c])
  }

  /** How many of the first `n` seats are still in the hand. */
  function Takers(ps: seq<Player>, n: nat): (k: nat)
    requires n <= |ps|
    ensures k <= n
  {
    if n == 0 then 0 else Takers(ps, n - 1) + (if ps[n - 1].folded then 0 else 1)
  }

  /** Later seats have at least as many takers before them, and one more past each taker. */
  lemma {:induction false} TakersGrow(ps: seq<Player>, j: nat, n: nat)
    requires j <= n <= |ps|
    ensures Takers(ps, j) <= Takers(ps, n)
    ensures j < n && !ps[j].folded ==> Takers(ps, j) < Takers(ps, n)
    decreases n - j
  {
    if j < n {
      TakersGrow(ps, j + 1, n);
    }
  }

  /** When nobody has folded, every seat takes a card. */
  lemma {:induction false} NobodyFolded(ps: seq<Player>, n: nat)
    requires n <= |ps| && forall i :: 0 <= i < |ps| ==> !ps[i].folded
    ensures Takers(ps, n) == n
  {
    if n > 0 {
      NobodyFolded(ps, n - 1);
    }
  }

  /**
   * One pass of a dealing loop over the first `n` seats: each player still
   * in the hand gets `self.deck.pop()` (the last card of the deck) into
   * `slot`. The result is the players, the deck left, and the (seat, card)
   * pairs in the order they were dealt.
   */
  function DealPass(ps: seq<Player>, deck: seq<Card>, slot: Slot, n: nat): (r: (seq<Player>, seq<Card>, seq<(nat, Card)>))
    requires n <= |ps| && Takers(ps, n) <= |deck|
    ensures |r.0| == |ps| && |r.2| == Takers(ps, n) && |r.1| == |deck| - |r.2|
  {
    if n == 0 then (ps, deck, [])
    else
      var r := DealPass(ps, deck, slot, n - 1);
      if ps[n - 1].folded then r
      else
        var c := r.1[|r.1| - 1];
        (r.0[n - 1 := Give(ps[n - 1], c, slot)], r.1[..|r.1| - 1], r.2 + [(n - 1, c)])
  }

  /** A dealing pass takes exactly the cards it deals off the top of the deck. */
  lemma {:induction false} DealPassDeck(ps: seq<Player>, deck: seq<Card>, slot: Slot, n: nat)
    requires n <= |ps| && Takers(ps, n) <= |deck|
    ensures DealPass(ps, deck, slot, n).1 == deck[..|deck| - Takers(ps, n)]
  {
    if n > 0 {
      DealPassDeck(ps, deck, slot, n - 1);
    }
  }

  /** Folded seats and seats past `n` get nothing. */
  lemma {:induction false} DealPassSkips(ps: seq<Player>, deck: seq<Card>, slot: Slot, n: nat)
    requires n <= |ps| && Takers(ps, n) <= |deck|
    ensures forall j :: 0 <= j < |ps| && (n <= j || ps[j].folded) ==> DealPass(ps, deck, slot, n).0[j] == ps[j]
  {
    if n > 0 {
      DealPassSkips(ps, deck, slot, n - 1);
    }
  }

  /** One more seat of a dealing pass: a folded seat is passed over. */
  lemma DealPassOver(ps: seq<Player>, deck: seq<Card>, slot: Slot, i: nat)
    requires i < |ps| && Takers(ps, i + 1) <= |deck| && ps[i].folded
    ensures Takers(ps, i) <= |deck|
    ensures DealPass(ps, deck, slot, i + 1) == DealPass(ps, deck, slot, i)
  {
    TakersGrow(ps, i, i + 1);
  }

  /** One more seat of a dealing pass: a seat still in takes the top card `c`. */
  lemma DealPassTake(ps: seq<Player>, deck: seq<Card>, slot: Slot, i: nat, rest: seq<Card>, c: Card)
    requires i < |ps| && Takers(ps, i + 1) <= |deck| && !ps[i].folded
    requires Takers(ps, i) <= |deck| && DealPass(ps, deck, slot, i).1 == rest + [c]
    ensures
      var r := DealPass(ps, deck, slot, i);
      DealPass(ps, deck, slot, i + 1) == (r.0[i := Give(r.0[i], c, slot)], rest, r.2 + [(i, c)])
  {
    DealPassSkips(ps, deck, slot, i);
    var r := DealPass(ps, deck, slot, i);
    assert r.1[|r.1| - 1] == c && r.1[..|r.1| - 1] == rest;
  }

  /** Before seat `i` is dealt to, it holds what it held. */
  lemma DealPassAhead(ps: seq<Player>, deck: seq<Card>, slot: Slot, i: nat)
    requires i < |ps| && Takers(ps, i) <= |deck|
    ensures DealPass(ps, deck, slot, i).0[i] == ps[i]
  {
    DealPassSkips(ps, deck, slot, i);
  }

  /**
   * A dealing pass deals in seat order from the top of the deck: the seat
   * `j` with `k` takers before it gets the card `k` places from the top,
   * and the record of what was dealt lists that card with its seat at
   * place `k`.
   */
  lemma {:induction false} DealPassFacts(ps: seq<Player>, deck: seq<Card>, slot: Slot, n: nat, j: nat)
    requires n <= |ps| && Takers(ps, n) <= |deck|
    requires j < n && !ps[j].folded
    ensures
      var r := DealPass(ps, deck, slot, n);
      var k := Takers(ps, j);
      && k < |r.2| && k < |deck|
      && r.0[j] == Give(ps[j], deck[|deck| - 1 - k], slot)
      && r.2[k] == (j, deck[|deck| - 1 - k])
  {
    var r := DealPass(ps, deck, slot, n - 1);
    var k := Takers(ps, j);
    TakersGrow(ps, j, n - 1);
    var R := DealPass(ps, deck, slot, n);
    if j < n - 1 {
      DealPassFacts(ps, deck, slot, n - 1, j);
      assert R.2[k] == r.2[k];
      assert R.0[j] == r.0[j];
    } else {
      DealPassDeck(ps, deck, slot, n - 1);
      var c := r.1[|r.1| - 1];
      assert c == deck[|deck| - 1 - k];
      assert R.0 == r.0[n - 1 := Give(ps[n - 1], c, slot)];
      assert R.2 == r.2 + [(n - 1, c)];
      assert |r.2| == k;
    }
  }

  /** `q` is `p` except, perhaps, for the cards. */
  predicate CardsOnly(p: Player, q: Player)
  {
    q == p.(hole := q.hole, down := q.down, up := q.up)
  }

  /** Dealing changes nothing about a player but their cards. */
  lemma {:induction false} DealPassOnlyCards(ps: seq<Player>, deck: seq<Card>, slot: Slot, n: nat)
    requires n <= |ps| && Takers(ps, n) <= |deck|
    ensures forall j :: 0 <= j < |ps| ==> CardsOnly(ps[j], DealPass(ps, deck, slot, n).0[j])
  {
    if n > 0 {
      DealPassOnlyCards(ps, deck, slot, n - 1);
      var r := DealPass(ps, deck, slot, n - 1);
      var R := DealPass(ps, deck, slot, n);
      forall j | 0 <= j < |ps| ensures CardsOnly(ps[j], R.0[j]) {
        if j == n - 1 && !ps[j].folded {
          assert R.0[j] == Give(ps[j], r.1[|r.1| - 1], slot);
        } else {
          assert R.0[j] == r.0[j];
        }
      }
    }
  }

  /** Tables whose players fold alike have the same takers. */
  lemma {:induction false} TakersAgree(ps: seq<Player>, qs: seq<Player>, n: nat)
    requires n <= |ps| == |qs|
    requires forall j :: 0 <= j < |ps| ==> ps[j].folded == qs[j].folded
    ensures Takers(ps, n) == Takers(qs, n)
  {
    if n > 0 {
      TakersAgree(ps, qs, n - 1);
    }
  }

  /** Tables whose stacks agree seat by seat hold the same chips. */
  lemma {:induction false} TotalChipsAgree(ps: seq<Player>, qs: seq<Player>)
    requires |ps| == |qs|
    requires forall j :: 0 <= j < |ps| ==> ps[j].chips == qs[j].chips
    ensures TotalChips(ps) == TotalChips(qs)
  {
    if ps != [] {
      var n := |ps|;
      TotalChipsAgree(ps[..n - 1], qs[..n - 1]);
    }
  }

  /** The players after `_post_antes`: each has put in `min(ante, chips)`. */
  function Anted(ps: seq<Player>, ante: nat): (r: seq<Player>)
    ensures |r| == |ps|
  {
    seq(|ps|, i requires 0 <= i < |ps| => ps[i].(chips := ps[i].chips - Min(ante, ps[i].chips)))
  }

  /** `_post_antes` on the table: each player puts in `min(ante, chips)` and the pot gains it all. */
  function AntesPosted(s: TableState, ante: nat): TableState
  {
    var ps := Anted(s.players, ante);
    s.(players := ps, pot := s.pot + TotalChips(s.players) - TotalChips(ps))
  }

  /** Antes keep every stack and bet non-negative and touch nothing but the stacks. */
  lemma AntesFacts(s: TableState, ante: nat)
    requires Funded(s.players)
    ensures
      var r := AntesPosted(s, ante);
      && Funded(r.players) && |r.players| == |s.players|
      && r.pot + TotalChips(r.players) == s.pot + TotalChips(s.players)
      && (forall j :: 0 <= j < |s.players| ==> r.players[j] == s.players[j].(chips := r.players[j].chips))
      && r == s.(players := r.players, pot := r.pot)
  {
  }

  /** The opening of `advance_phase`: every bet back to zero and the round open again. */
  function NewStreet(s: TableState): TableState
  {
    s.(players := seq(|s.players|, i requires 0 <= i < |s.players| => s.players[i].(bet := 0)),
       currentBet := 0, roundComplete := false)
  }

  /**
   * A new betting round keeps the table seated and the chips where they
   * were, and starts with every bet matched at zero.
   */
  lemma NewStreetFacts(s: TableState)
    requires Seated(s)
    ensures
      var r := NewStreet(s);
      && Seated(r) && |r.players| == |s.players|
      && TotalChips(r.players) == TotalChips(s.players) && r.pot == s.pot
      && AllMatched(r.players, r.currentBet) && !r.roundComplete
      && (forall j :: 0 <= j < |s.players| ==> r.players[j].folded == s.players[j].folded && r.players[j].allIn == s.players[j].allIn)
  {
    TotalChipsAgree(NewStreet(s).players, s.players);
  }

  /**
   * The end of `advance_phase` once the street is dealt: the turn goes to
   * the first seat left of the dealer that can act, that player counts as
   * the last raiser, and the round is complete at once when at most one
   * player can act.
   */
  function OpenRound(s: TableState): TableState
    requires |s.players| >= 1
  {
    var first := Skip(s.players, (s.dealer + 1) % |s.players|);
    var r := s.(current := first, lastRaiser := Some(first));
    if |Where(s.players, CanAct)| <= 1 then r.(roundComplete := true) else r
  }

  /**
   * Opening a round seats the turn on the first player clockwise from the
   * dealer's left who can act (whenever anybody can), makes that seat the
   * last raiser, and completes the round exactly when it was already
   * complete or at most one player can act; nothing else changes.
   */
  lemma OpenRoundFacts(s: TableState)
    requires Seated(s)
    ensures
      var r := OpenRound(s);
      && Seated(r)
      && LandsFrom(s.players, (s.dealer + 1) % |s.players|, 0, r.current)
      && (|Where(s.players, CanAct)| >= 1 ==> CanAct(s.players[r.current]))
      && r.lastRaiser == Some(r.current)
      && (r.roundComplete <==> s.roundComplete || |Where(s.players, CanAct)| <= 1)
      && r == s.(current := r.current, lastRaiser := r.lastRaiser, roundComplete := r.roundComplete)
  {
    var c := (s.dealer + 1) % |s.players|;
    OpenRoundTurn(s.players, c);
    assert OpenRound(s).current == Skip(s.players, c);
  }

  /** Where `OpenRound` puts the turn, with the table's seats as parameters. */
  lemma OpenRoundTurn(ps: seq<Player>, c: nat)
    requires c < |ps|
    ensures LandsFrom(ps, c, 0, Skip(ps, c))
    ensures |Where(ps, CanAct)| >= 1 ==> CanAct(ps[Skip(ps, c)])
  {
    SkipLands(ps, c);
    if |Where(ps, CanAct)| >= 1 {
      SkipFindsAble(ps, c);
    }
  }

  /** When anybody can act, the skip loop stops on a player who can. */
  lemma SkipFindsAble(ps: seq<Player>, c: nat)
    requires c < |ps| && |Where(ps, CanAct)| >= 1
    ensures CanAct(ps[Skip(ps, c)])
  {
    var first := Skip(ps, c);
    SkipLands(ps, c);
    SomeoneCanAct(ps, c, Where(ps, CanAct)[0]);
    var d :| 0 <= d && FirstAbleAt(ps, c, d) && first == Clockwise(|ps|, c, d);
  }

  /** A seat that can act is some number of places clockwise from any seat. */
  lemma SomeoneCanAct(ps: seq<Player>, c: nat, i: nat)
    requires c < |ps| && i < |ps| && CanAct(ps[i])
    ensures !NoneCanActWithin(ps, c, |ps|)
  {
    var n := |ps|;
    var e := if c <= i then i - c else i + n - c;
    assert Clockwise(n, c, e) == i;
  }

  /**
   * The hand ends by folds and then loses its winner. With two players in,
   * the current one folds: the round check sends the hand to the showdown
   * but the turn passes to the last player in, whose own fold is then
   * accepted as well. Nobody is left in the hand, and the phase is still
   * the showdown, so the handler goes on to `determine_winners` with no
   * active player.
   */
  lemma LoneWinnerFoldsAgain(s: TableState, w: nat)
    requires Seated(s) && w < |s.players| && w != s.current
    requires forall i :: 0 <= i < |s.players| ==> (InHand(s.players[i]) <==> i == s.current || i == w)
    requires CanAct(s.players[w])
    ensures
      var r := Respond(s, Fold, None).0;
      && Respond(s, Fold, None).1
      && r.phase == Showdown && r.roundComplete && r.current == w
      && Where(r.players, InHand) == [w]
      && Respond(r, Fold, None).1
      && Where(Respond(r, Fold, None).0.players, InHand) == []
      && Respond(r, Fold, None).0.phase == Showdown
  {
    LastButOneFolds(s, w);
    LastFolds(Respond(s, Fold, None).0, w);
  }

  /** The first fold of `LoneWinnerFoldsAgain`: the hand goes to the showdown with the turn on seat `w`. */
  lemma LastButOneFolds(s: TableState, w: nat)
    requires Seated(s) && w < |s.players| && w != s.current
    requires forall i :: 0 <= i < |s.players| ==> (InHand(s.players[i]) <==> i == s.current || i == w)
    requires CanAct(s.players[w])
    ensures Respond(s, Fold, None).1
    ensures Respond(s, Fold, None).0.phase == Showdown && Respond(s, Fold, None).0.roundComplete
    ensures Respond(s, Fold, None).0.current == w && |Respond(s, Fold, None).0.players| == |s.players|
    ensures Where(Respond(s, Fold, None).0.players, InHand) == [w]
  {
    var s1 := Act(s, Fold, None).value;
    FoldLeavesOne(s, w);
    TurnToLastPlayer(s1, (s.current + 1) % |s.players|, w);
  }

  /** A fold by the current player leaves seat `w` the only player in, and the only one who can act. */
  lemma FoldLeavesOne(s: TableState, w: nat)
    requires Seated(s) && w < |s.players| && w != s.current
    requires forall i :: 0 <= i < |s.players| ==> (InHand(s.players[i]) <==> i == s.current || i == w)
    requires CanAct(s.players[w])
    ensures Act(s, Fold, None).Some?
    ensures var s1 := Act(s, Fold, None).value;
      && |s1.players| == |s.players|
      && (forall i :: 0 <= i < |s1.players| ==> (InHand(s1.players[i]) <==> i == w))
      && (forall i :: 0 <= i < |s1.players| ==> (CanAct(s1.players[i]) <==> i == w))
      && Respond(s, Fold, None) == (Advance(s1), true)
  {
  }

  /** With seat `w` the only player in and able to act, the turn goes to `w` and the hand to the showdown. */
  lemma TurnToLastPlayer(s1: TableState, next: nat, w: nat)
    requires w < |s1.players| && s1.current < |s1.players| && next == (s1.current + 1) % |s1.players|
    requires forall i :: 0 <= i < |s1.players| ==> (InHand(s1.players[i]) <==> i == w)
    requires forall i :: 0 <= i < |s1.players| ==> (CanAct(s1.players[i]) <==> i == w)
    ensures Advance(s1) == s1.(current := w, roundComplete := true, phase := Showdown)
    ensures Where(s1.players, InHand) == [w]
  {
    OnlySeat(s1.players, InHand, w);
    OnlySeat(s1.players, CanAct, w);
    SkipFindsAble(s1.players, next);
  }

  /** The second fold of `LoneWinnerFoldsAgain`: the last player in folds at the showdown. */
  lemma LastFolds(r: TableState, w: nat)
    requires w < |r.players| && r.current == w && r.phase == Showdown
    requires Where(r.players, InHand) == [w]
    ensures Respond(r, Fold, None).1
    ensures Where(Respond(r, Fold, None).0.players, InHand) == []
    ensures Respond(r, Fold, None).0.phase == Showdown
  {
    assert forall i :: 0 <= i < |r.players| && i != w ==> !InHand(r.players[i]);
    var r2 := r.(players := r.players[w := r.players[w].(folded := true)]);
    assert Act(r, Fold, None) == Some(r2);
    assert forall i :: 0 <= i < |r2.players| ==> !InHand(r2.players[i]) && !CanAct(r2.players[i]);
    NoSeat(r2.players, InHand);
    NoSeat(r2.players, CanAct);
    var last := Skip(r2.players, (w + 1) % |r2.players|);
    assert Respond(r, Fold, None) == (r2.(current := last, roundComplete := true), true);
  }

  /** The seats `keep` selects when it selects exactly seat `w`. */
  lemma OnlySeat(ps: seq<Player>, keep: Player -> bool, w: nat)
    requires w < |ps| && forall i :: 0 <= i < |ps| ==> (keep(ps[i]) <==> i == w)
    ensures Where(ps, keep) == [w]
  {
    var r := Where(ps, keep);
    assert w in r;
    IncreasingSpread(r);
    assert r[0] == w && r[|r| - 1] == w;
  }

  /** The last of a strictly increasing sequence of seats lies at least its length minus one above the first. */
  lemma IncreasingSpread(r: seq<nat>)
    requires |r| >= 1
    requires forall k, l :: 0 <= k < l < |r| ==> r[k] < r[l]
    ensures r[|r| - 1] >= r[0] + |r| - 1
  {
    if |r| > 1 {
      IncreasingSpread(r[..|r| - 1]);
      assert r[..|r| - 1][|r| - 2] == r[|r| - 2];
    }
  }

  /** The seats `keep` selects when it selects none. */
  lemma NoSeat(ps: seq<Player>, keep: Player -> bool)
    requires forall i :: 0 <= i < |ps| ==> !keep(ps[i])
    ensures Where(ps, keep) == []
  {
    if |Where(ps, keep)| > 0 {
      assert false;
    }
  }

  // ---------------------------------------------------------------------------
  // The table object
  // ---------------------------------------------------------------------------

  class Table {
    var players: seq<Player>
    var pot: int
    var currentBet: int
    var phase: Phase
    var dealer: nat
    var current: nat
    var lastRaiser: Option<int>
    var roundComplete: bool
    var deck: seq<Card>
    /** Whether `new_hand` renumbers the seats: game_classes.py does, app.py does not. */
    const renumbers: bool

    function State(): TableState
      reads this
    {
      TableState(players, pot, currentBet, phase, dealer, current, lastRaiser, roundComplete, deck)
    }

    ghost predicate Valid()
      reads this
    {
      Seated(State())
    }

    /** `reset_game` followed by the players joining: an empty pot, the first phase, the dealer at seat 0. */
    constructor (seated: seq<Player>, first: Phase, renumbers: bool)
      requires |seated| >= 1 && Funded(seated)
      ensures Valid() && this.renumbers == renumbers
      ensures State() == TableState(seated, 0, 0, first, 0, 0, None, false, [])
    {
      players := seated;
      pot := 0;
      currentBet := 0;
      phase := first;
      dealer := 0;
      current := 0;
      lastRaiser := None;
      roundComplete := false;
      deck := [];
      this.renumbers := renumbers;
    }

    /** `self.deck.pop()`: the last card of the deck. */
    method Pop() returns (c: Card)
      requires |deck| >= 1
      modifies this`deck
      ensures old(deck) == deck + [c]
    {
      c := deck[|deck| - 1];
      deck := deck[..|deck| - 1];
    }

    /** `_skip_folded_players`. */
    method SkipFoldedPlayers()
      requires Valid()
      modifies this`current
      ensures Valid()
      ensures current == Skip(players, old(current))
    {
      ghost var target := Skip(players, current);
      var attempts := 0;
      while !CanAct(players[current])
        invariant current < |players| && attempts < |players|
        invariant SkipFrom(players, current, attempts) == target
        decreases |players| - attempts
      {
        NextSeatMod(|players|, current);
        current := (current + 1) % |players|;
        attempts := attempts + 1;
        if attempts >= |players| {
          break;
        }
      }
    }

    /** `_check_round_complete`. */
    method CheckRoundComplete()
      modifies this`roundComplete, this`phase
      ensures State() == Complete(old(State()))
    {
      var active := Where(players, InHand);
      var toAct := Where(players, CanAct);
      if |active| == 1 {
        roundComplete := true;
        phase := Showdown;
        return;
      }
      if |toAct| == 0 {
        roundComplete := true;
        return;
      }
      var allMatched := AllMatched(players, currentBet);
      var backToRaiser := lastRaiser == Some(current);
      if allMatched && backToRaiser {
        roundComplete := true;
      }
    }

    /**
     * `player_action(action, amount)`; `amount` is `None` for an explicit
     * `None` (a JSON null), on which game_classes.py raises to twice the bet
     * to match. An omitted amount is `Some(0)`, the parameter's default.
     */
    method PlayerAction(action: Action, amount: Option<int>) returns (ok: bool)
      requires Valid()
      modifies this
      ensures Valid()
      ensures (State(), ok) == Respond(old(State()), action, amount)
    {
      ghost var s0 := State();
      ok := ApplyAction(action, amount);
      RespondFacts(s0, action, amount);
      if ok {
        ActConservesChips(s0, action, amount);
        PassTurn();
      }
    }

    /** The end of an accepted `player_action`: the next seat, skipping those who cannot act, then the round check. */
    method PassTurn()
      requires Valid()
      modifies this`current, this`roundComplete, this`phase
      ensures State() == Advance(old(State()))
    {
      ghost var s0 := State();
      NextSeatMod(|players|, current);
      current := (current + 1) % |players|;
      SkipFoldedPlayers();
      ghost var s1 := State();
      assert s1 == s0.(current := Skip(s0.players, (s0.current + 1) % |s0.players|));
      CheckRoundComplete();
      AdvanceThenComplete(s0, s1);
    }

    /** The branches of `player_action` on the action, before the turn moves on. */
    method ApplyAction(action: Action, amount: Option<int>) returns (ok: bool)
      requires Valid()
      modifies this
      ensures ok == Act(old(State()), action, amount).Some?
      ensures State() == if ok then Act(old(State()), action, amount).value else old(State())
    {
      var p := players[current];
      match action {
        case Fold =>
          players := players[current := p.(folded := true)];
        case Check =>
          if currentBet > p.bet {
            return false;
          }
        case Call =>
          CallCurrent();
        case Raise =>
          ok := RaiseCurrent(amount);
          return;
        case AllIn =>
          AllInCurrent();
        case Unrecognised =>
      }
      ok := true;
    }

    /** The `call` branch: match the bet to match, or put in the whole stack. */
    method CallCurrent()
      requires Valid()
      modifies this
      ensures Act(old(State()), Call, None).Some? && State() == Act(old(State()), Call, None).value
    {
      var p := players[current];
      var callAmount := Min(currentBet - p.bet, p.chips);
      players := players[current := Commit(p, callAmount)];
      pot := pot + callAmount;
    }

    /** The `raise` branch: refused when too small, else the bet to match becomes the player's new bet. */
    method RaiseCurrent(amount: Option<int>) returns (ok: bool)
      requires Valid()
      modifies this
      ensures ok == Act(old(State()), Raise, amount).Some?
      ensures State() == if ok then Act(old(State()), Raise, amount).value else old(State())
    {
      var p := players[current];
      var target := if amount.None? then currentBet * 2 else amount.value;
      if target < currentBet * 2 && target < p.chips + p.bet {
        return false;
      }
      var raiseAmount := Min(target - p.bet, p.chips);
      players := players[current := Commit(p, raiseAmount)];
      pot := pot + raiseAmount;
      currentBet := players[current].bet;
      lastRaiser := Some(current);
      ok := true;
    }

    /** The `all-in` branch: the whole stack goes in, raising the bet to match when it exceeds it. */
    method AllInCurrent()
      requires Valid()
      modifies this
      ensures Act(old(State()), AllIn, None).Some? && State() == Act(old(State()), AllIn, None).value
    {
      var p := players[current];
      var allInAmount := p.chips;
      players := players[current := p.(bet := p.bet + allInAmount, chips := 0, allIn := true)];
      pot := pot + allInAmount;
      if players[current].bet > currentBet {
        currentBet := players[current].bet;
        lastRaiser := Some(current);
      }
    }

    /** The common start of `new_hand`: returns whether at least two players remain. */
    method ResetForNewHand(shuffled: seq<Card>, first: Phase) returns (continues: bool)
      modifies this
      ensures State() == Reseat(old(State()), shuffled, first, renumbers).(current := old(current))
      ensures continues <==> |players| >= 2
    {
      ghost var s0 := State();
      deck := shuffled;
      pot := 0;
      currentBet := 0;
      phase := first;
      lastRaiser := None;
      roundComplete := false;
      ResetPlayers();
      ghost var ps := Remaining(s0.players, renumbers);
      continues := |players| >= 2;
      if continues {
        dealer := (dealer + 1) % |players|;
      }
      assert State() == TableState(ps, 0, 0, first, if |ps| < 2 then s0.dealer else (s0.dealer + 1) % |ps|, s0.current, None, false, shuffled);
      ReseatFields(s0, shuffled, first, renumbers);
    }

    /** The players' part of `new_hand`: cleared, the busted ones dropped and, in the variants that do, the seats renumbered. */
    method ResetPlayers()
      modifies this`players
      ensures players == Remaining(old(players), renumbers)
    {
      ClearPlayers();
      DropBusted();
      if renumbers {
        RenumberSeats();
      }
    }

    /** The loop of `new_hand` that clears every player's bet, fold, all-in, hand and cards. */
    method ClearPlayers()
      modifies this`players
      ensures players == Cleared(old(players))
    {
      ghost var before := players;
      for i := 0 to |players|
        invariant |players| == |before|
        invariant forall j :: 0 <= j < i ==> players[j] == Fresh(before[j])
        invariant forall j :: i <= j < |players| ==> players[j] == before[j]
      {
        players := players[i := Fresh(players[i])];
      }
    }

    /** `self.players = [p for p in self.players if p['chips'] > 0]`. */
    method DropBusted()
      modifies this`players
      ensures players == Kept(old(players))
    {
      var kept: seq<Player> := [];
      for i := 0 to |players|
        invariant kept == Kept(players[..i])
      {
        assert players[..i + 1][..i] == players[..i];
        if players[i].chips > 0 {
          kept := kept + [players[i]];
        }
      }
      assert players[..|players|] == players;
      players := kept;
    }

    /** The renumbering loop of game_classes.py's `new_hand`. */
    method RenumberSeats()
      modifies this`players
      ensures players == Renumbered(old(players))
    {
      ghost var before := players;
      for i := 0 to |players|
        invariant |players| == |before|
        invariant forall j :: 0 <= j < i ==> players[j] == before[j].(id := j)
        invariant forall j :: i <= j < |players| ==> players[j] == before[j]
      {
        players := players[i := players[i].(id := i)];
      }
    }

    /** `for player in self.players: player['current_bet'] = 0` at the start of a betting round. */
    method ClearBets()
      modifies this`players
      ensures |players| == |old(players)|
      ensures forall i :: 0 <= i < |players| ==> players[i] == old(players)[i].(bet := 0)
    {
      ghost var before := players;
      for i := 0 to |players|
        invariant |players| == |before|
        invariant forall j :: 0 <= j < i ==> players[j] == before[j].(bet := 0)
        invariant forall j :: i <= j < |players| ==> players[j] == before[j]
      {
        players := players[i := players[i].(bet := 0)];
      }
    }

    /** A dealing loop: `for player in self.players: if not player['folded']: ...append(self.deck.pop())`. */
    method Deal(slot: Slot) returns (dealt: seq<(nat, Card)>)
      requires Takers(players, |players|) <= |deck|
      modifies this`players, this`deck
      ensures (players, deck, dealt) == DealPass(old(players), old(deck), slot, |old(players)|)
    {
      ghost var before, full := players, deck;
      dealt := [];
      for i := 0 to |players|
        invariant |players| == |before| && Takers(before, i) <= |full|
        invariant (players, deck, dealt) == DealPass(before, full, slot, i)
      {
        TakersGrow(before, i + 1, |before|);
        DealPassAhead(before, full, slot, i);
        if !players[i].folded {
          var c := Pop();
          DealPassTake(before, full, slot, i, deck, c);
          players := players[i := Give(players[i], c, slot)];
          dealt := dealt + [(i, c)];
        } else {
          DealPassOver(before, full, slot, i);
        }
      }
    }

    /** The end of `advance_phase` after a street is dealt. */
    method OpenBetting()
      requires Valid()
      modifies this`current, this`lastRaiser, this`roundComplete
      ensures State() == OpenRound(old(State()))
    {
      current := (dealer + 1) % |players|;
      SkipFoldedPlayers();
      lastRaiser := Some(current);
      if |Where(players, CanAct)| <= 1 {
        roundComplete := true;
      }
    }

    /** The opening of `advance_phase`. */
    method StartStreet()
      modifies this`players, this`currentBet, this`roundComplete
      ensures State() == NewStreet(old(State()))
    {
      ClearBets();
      currentBet := 0;
      roundComplete := false;
      assert players == NewStreet(old(State())).players;
    }

    /** `_post_antes`: every player puts in `min(ante, chips)`. */
    method PostAntes(ante: nat)
      requires Funded(players)
      modifies this`players, this`pot
      ensures Funded(players) && |players| == |old(players)|
      ensures pot + TotalChips(players) == old(pot) + TotalChips(old(players))
      ensures players == Anted(old(players), ante)
    {
      ghost var before := players;
      for i := 0 to |players|
        invariant |players| == |before| && Funded(players)
        invariant pot + TotalChips(players) == old(pot) + TotalChips(before)
        invariant forall j :: 0 <= j < i ==> players[j] == before[j].(chips := before[j].chips - Min(ante, before[j].chips))
        invariant forall j :: i <= j < |players| ==> players[j] == before[j]
      {
        var a := Min(ante, players[i].chips);
        TotalChipsUpdate(players, i, players[i].(chips := players[i].chips - a));
        players := players[i := players[i].(chips := players[i].chips - a)];
        pot := pot + a;
      }
      assert players == Anted(before, ante);
    }

    /** The fold win of `determine_winners`: the lone remaining player takes the pot (which is not emptied). */
    method PayLoneWinner(seat: nat, kind: WinKind) returns (payouts: seq<Payout>)
      requires seat < |players|
      modifies this`players
      ensures players == old(players)[seat := old(players)[seat].(chips := old(players)[seat].chips + pot)]
      ensures TotalChips(players) == TotalChips(old(players)) + pot
      ensures payouts == [Payout(seat, pot, None, kind)]
    {
      TotalChipsUpdate(players, seat, players[seat].(chips := players[seat].chips + pot));
      players := players[seat := players[seat].(chips := players[seat].chips + pot)];
      payouts := [Payout(seat, pot, None, kind)];
    }

    /**
     * The payout loop of `determine_winners`: `winners` share `total`, the
     * first `total % k` of them one chip more; the pot is not emptied.
     */
    method PaySplit(winners: seq<nat>, total: int, names: seq<Option<string>>, kind: WinKind) returns (payouts: seq<Payout>)
      requires |winners| >= 1 && |names| == |winners|
      requires forall k :: 0 <= k < |winners| ==> winners[k] < |players|
      modifies this`players
      ensures players == Credit(old(players), winners, Shares(total, |winners|))
      ensures TotalChips(players) == TotalChips(old(players)) + total
      ensures payouts == SplitPayouts(winners, Shares(total, |winners|), names, kind)
    {
      var share := total / |winners|;
      var remainder := total % |winners|;
      ghost var amounts := Shares(total, |winners|);
      payouts := [];
      for i := 0 to |winners|
        invariant players == Credit(old(players), winners[..i], amounts[..i])
        invariant payouts == SplitPayouts(winners[..i], amounts[..i], names[..i], kind)
      {
        var amount := share + (if i < remainder then 1 else 0);
        assert amount == amounts[i];
        assert winners[..i + 1][..i] == winners[..i] && amounts[..i + 1][..i] == amounts[..i];
        SplitPayoutsNext(winners, amounts, names, kind, i);
        players := players[winners[i] := players[winners[i]].(chips := players[winners[i]].chips + amount)];
        payouts := payouts + [Payout(winners[i], amount, names[i], kind)];
      }
      assert winners[..|winners|] == winners && amounts[..|winners|] == amounts && names[..|winners|] == names;
      SplitPaysPot(old(players), winners, total);
    }

    /** The best-hand loop of `determine_winners` over the active seats, with `compare_hands`. */
    method BestHighSeats(active: seq<nat>) returns (best: seq<nat>)
      requires forall k :: 0 <= k < |active| ==> active[k] < |players| && players[active[k]].hand.Some?
      ensures best == Leaders(active, HandsAt(players, active), CompareHands, |active|).1
    {
      var b := -1;
      var bestHand := HandValue(0, []);
      best := [];
      ghost var vals := HandsAt(players, active);
      for i := 0 to |active|
        invariant (b, best) == Leaders(active, vals, CompareHands, i)
        invariant b != -1 ==> bestHand == vals[b]
      {
        var h := players[active[i]].hand.value;
        if b == -1 {
          b, bestHand, best := i, h, [active[i]];
        } else {
          var c := CompareHands(h, bestHand);
          if c > 0 {
            b, bestHand, best := i, h, [active[i]];
          } else if c == 0 {
            best := best + [active[i]];
          }
        }
      }
    }

    /**
     * The showdown payout of `determine_winners`: the seats whose hand is
     * best among `active` split the pot, each entry naming its hand; the
     * pot itself is not emptied.
     */
    method PayBestHands(active: seq<nat>, kind: WinKind) returns (payouts: seq<Payout>)
      requires |active| >= 1
      requires forall k :: 0 <= k < |active| ==> active[k] < |players| && players[active[k]].hand.Some?
      modifies this`players
      ensures
        var w := BestSeats(old(players), active);
        && players == Credit(old(players), w, Shares(pot, |w|))
        && TotalChips(players) == TotalChips(old(players)) + pot
        && payouts == SplitPayouts(w, Shares(pot, |w|), HandNames(old(players), w), kind)
    {
      var best := BestHighSeats(active);
      LeadersAmongSeats(active, HandsAt(players, active), CompareHands, |active|);
      var ps := players;
      var names := seq(|best|, k requires 0 <= k < |best| => Some(CategoryName(ps[best[k]].hand.value.category)));
      assert names == HandNames(players, best);
      payouts := PaySplit(best, pot, names, kind);
    }
  }

  /** The seats the best-hand scan of `determine_winners` picks among `active`. */
  function BestSeats(ps: seq<Player>, active: seq<nat>): (w: seq<nat>)
    requires |active| >= 1
    requires forall k :: 0 <= k < |active| ==> active[k] < |ps| && ps[active[k]].hand.Some?
    ensures |w| >= 1 && forall k :: 0 <= k < |w| ==> w[k] < |ps| && ps[w[k]].hand.Some?
  {
    LeadersAmongSeats(active, HandsAt(ps, active), CompareHands, |active|);
    Leaders(active, HandsAt(ps, active), CompareHands, |active|).1
  }

  /** The names of the seats' hands, as the payout entries show them (`None` for a seat with no hand). */
  function HandNames(ps: seq<Player>, seats: seq<nat>): (r: seq<Option<string>>)
    ensures |r| == |seats|
    ensures forall k :: 0 <= k < |seats| && seats[k] < |ps| && ps[seats[k]].hand.Some? ==>
      r[k] == Some(CategoryName(ps[seats[k]].hand.value.category))
  {
    seq(|seats|, k requires 0 <= k < |seats| =>
      if seats[k] < |ps| && ps[seats[k]].hand.Some? then Some(CategoryName(ps[seats[k]].hand.value.category)) else None)
  }

  /** The hand values of the given seats. */
  function HandsAt(ps: seq<Player>, seats: seq<nat>): (r: seq<HandValue>)
    requires forall k :: 0 <= k < |seats| ==> seats[k] < |ps| && ps[seats[k]].hand.Some?
    ensures |r| == |seats| && forall k :: 0 <= k < |seats| ==> r[k] == ps[seats[k]].hand.value
  {
    seq(|seats|, k requires 0 <= k < |seats| => ps[seats[k]].hand.value)
  }

  /**
   * With well-formed hands, the seats the best-hand loop picks are exactly
   * the seats whose hand equals the best one, in seat order, and no hand at
   * the table beats it.
   */
  lemma HighWinnersHoldBest(ps: seq<Player>, active: seq<nat>)
    requires |active| >= 1
    requires forall k :: 0 <= k < |active| ==> active[k] < |ps| && ps[active[k]].hand.Some? && WellFormed(ps[active[k]].hand.value)
    ensures
      var vals := HandsAt(ps, active);
      var (b, w) := Leaders(active, vals, CompareHands, |active|);
      && 0 <= b < |active|
      && (forall j :: 0 <= j < |active| ==> !Beats(vals[j], vals[b]))
      && w == TiedWith(active, vals, CompareHands, vals[b], |active|)
      && (forall j :: 0 <= j < |active| ==> (CompareHands(vals[j], vals[b]) == 0 <==> vals[j] == vals[b]))
  {
    var vals := HandsAt(ps, active);
    HandsRanked(vals);
    LeadersAreBest(active, vals, CompareHands, |active|);
    var b := Leaders(active, vals, CompareHands, |active|).0;
    forall j | 0 <= j < |active| ensures !Beats(vals[j], vals[b]) && (CompareHands(vals[j], vals[b]) == 0 <==> vals[j] == vals[b]) {
      NotBeatenSays(vals[b], vals[j]);
      CompareHandsTieIffEqual(vals[j], vals[b]);
    }
  }

  /** Tables whose players fold and go all-in alike select the same seats. */
  lemma {:induction false} WhereAgree(ps: seq<Player>, qs: seq<Player>)
    requires |ps| == |qs|
    requires forall j :: 0 <= j < |ps| ==> ps[j].folded == qs[j].folded && ps[j].allIn == qs[j].allIn
    ensures Where(ps, InHand) == Where(qs, InHand) && Where(ps, CanAct) == Where(qs, CanAct)
  {
    if ps != [] {
      var n := |ps|;
      WhereAgree(ps[..n - 1], qs[..n - 1]);
    }
  }

  /** The best seats' hand is the one every winner holds, and every holder of it wins. */
  lemma BestSeatsTie(shown: seq<Player>, active: seq<nat>)
    requires |active| >= 1
    requires forall k :: 0 <= k < |active| ==> active[k] < |shown| && shown[active[k]].hand.Some? && WellFormed(shown[active[k]].hand.value)
    ensures
      var vals := HandsAt(shown, active);
      var b := Leaders(active, vals, CompareHands, |active|).0;
      var w := BestSeats(shown, active);
      && 0 <= b < |active|
      && (forall j :: 0 <= j < |active| ==> !Beats(vals[j], vals[b]))
      && (forall i :: 0 <= i < |w| ==> shown[w[i]].hand == Some(vals[b]))
      && (forall k :: 0 <= k < |active| && shown[active[k]].hand == Some(vals[b]) ==> active[k] in w)
  {
    HighWinnersHoldBest(shown, active);
    var vals := HandsAt(shown, active);
    var b := Leaders(active, vals, CompareHands, |active|).0;
    var w := BestSeats(shown, active);
    var h := vals[b];
    TiedWithSays(active, vals, CompareHands, h, |active|);
    forall i | 0 <= i < |w| ensures shown[w[i]].hand == Some(h) {
      assert TiesAmong(active, vals, CompareHands, h, |active|, w[i]);
      var k :| 0 <= k < |active| && w[i] == active[k] && CompareHands(vals[k], h) == 0;
    }
    forall k | 0 <= k < |active| && shown[active[k]].hand == Some(h) ensures active[k] in w {
      CompareHandsTieIffEqual(vals[k], h);
    }
  }
}
