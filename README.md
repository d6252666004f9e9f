# Follow-the-Queen poker engine, modelled in Dafny

This project models the game logic of a small poker server that deals Texas
Hold'em and seven-card stud "Follow the Queen" (optionally Hi-Lo, eight or
better). The server itself (web routes, sockets, bots, rendering) is not
modelled. The model covers three things.

- **Hand evaluation** (`evaluators.py`):
  - the deck;
  - ranking a five-card hand into eleven categories with tiebreakers;
  - the best five of seven;
  - comparing two hands;
  - substituting wild cards, with the 10000-candidate cap and the Five of a
    Kind pre-check;
  - the eight-or-better low, with and without wild cards, and comparing
    two lows.
- **The betting table** shared by both games (`BasePokerGame` in
  `game_classes.py` and `app.py`):
  - actions (fold, check, call, raise, all-in);
  - passing the turn past folded and all-in players;
  - detecting the end of a betting round;
  - starting a new hand: dropping busted players, optional renumbering,
    moving the button;
  - dealing, antes;
  - splitting a pot with odd chips to the earliest winners.
- **The two variants**:
  - Hold'em with antes and first-to-act left of the dealer
    (`game_classes.py`), or with blinds and first-to-act three left of the
    dealer (`app.py`). Both share streets with a burn card and the showdown.
  - Follow the Queen (`game_classes.py`): antes, third street, the bring-in
    by lowest door card and suit, the wild rank following each face-up
    Queen, the streets, evaluation with Queens and the following rank wild,
    and the Hi-Lo split with scoops merged into one entry.

Modules:

| file | module | models |
|---|---|---|
| `wrappers.dfy` | `Wrappers` | `Option` |
| `cards.dfy` | `Cards` | cards, ranks, suits, `create_deck` |
| `combinations.dfy` | `Combinations` | `itertools.combinations` order |
| `rank_counts.dfy` | `RankCounts` | `get_rank_counts` and the sorted orders used for tiebreakers |
| `hand_evaluator.dfy` | `HandEvaluator` | `is_flush`, `is_straight`, `evaluate_five` |
| `hand_comparison.dfy` | `HandComparison` | `compare_hands` and Python's tuple order |
| `best_hand.dfy` | `BestHandSearch` | `best_hand` |
| `wild_cards.dfy` | `WildCardEvaluator` | `expand_wild_cards`, `best_hand_with_wilds` |
| `low_hand.dfy` | `LowHandEvaluator` | the whole low-hand evaluator |
| `table.dfy` | `PokerTable` | `BasePokerGame` as class `Table` |
| `holdem.dfy` | `Holdem` | both `HoldemGame`s as class `HoldemGame` |
| `stud.dfy` | `FollowTheQueen` | `StudFollowQueenGame` as class `StudGame` |

Representation choices:

- **Cards.** A card is `Card(rank, suit)`. The rank is 0..12 for 2..A; the
  suit is 0..3 for hearts, diamonds, clubs, spades.
- **Players.** A player dictionary is the datatype `Player`.
- **Table state.** The mutable game object is the class `Table`. The
  variants wrap it: `HoldemGame` and `StudGame` hold a `Table` and add the
  community cards, or the wild rank and its history.
- **How methods are specified.** Every method that changes the table is
  specified by a function of the old state: `Act`, `Respond`, `Complete`,
  `Advance`, `Reseat`, `Opening`, `StudOpening`, `NextStreet` and others.
  The lemmas beside those functions prove what the rules promise: chips
  conserved, turn order, round completion, who wins.
- **Search loops.** The loops of `best_hand`, `best_hand_with_wilds`,
  `best_low_hand` and `best_low_hand_with_wilds` are methods proved equal
  to a fold over the combinations. Optimality is proved about the fold.

The two copies differ in a few ways:

- **Evaluator.** The copy in `app.py` is the same as `evaluators.py`, so one
  model serves both.
- **Hold'em variants.** `Forced` picks between them:
  - `Antes(ante)` is the `game_classes.py` game. It renumbers seat ids on a
    new hand, and the first to act sits at dealer + 1.
  - `Blinds(small, big)` is the `app.py` game. It keeps ids, and the first
    to act sits at dealer + 3.
- **Stud.** The model follows `game_classes.py`. It adds the Hi-Lo mode to
  the `app.py` stud, its new hand renumbers seat ids where the `app.py` one
  does not, and its `determine_winners` labels each payout with a
  `win_type` where the `app.py` copy pays through the unlabelled base
  version. `StudGame` takes all three as flags (`hiLo`, `renumbers`,
  `labels`).

Some behaviour is kept as the code has it, though a reader of the rules
might expect otherwise:

- **Raises.** A raise below twice the bet to match is accepted whenever the
  amount reaches the stack plus the current bet, not only when it is
  exactly the stack. Such a short all-in raise can lower the bet to match
  (`ShortRaiseLowersBet`).
- **Round completion.**
  - `_check_round_complete` never resets `round_complete`.
  - The turn pointer gives up after one lap and may rest on a folded
    player.
  - A hand opened with blinds ends the pre-flop round when the action
    returns to the big blind's left, without giving the big blind an
    option (`BigBlindGetsNoOption`).
- **Payouts.**
  - `determine_winners` pays out the pot but does not zero it.
  - In Hi-Lo a scoop is one entry holding the high share plus the low
    share.
- **Hold'em pre-flop.** Hold'em with antes leaves `last_raiser` unset
  pre-flop.
- **Wild lows.** A wild low skips a combination whose natural cards pair
  or include a card above eight. The "not enough free ranks" skip can
  never fire for five-card combinations (`WildLowSkipped`).

## Model

| member | source | states |
|---|---|---|
| Cards.CreateDeck | evaluators.py:24-27 | 52 cards, suits outer and ranks inner: position 13·s + r holds rank r of suit s |
| Cards.DeckHasEveryCardOnce | evaluators.py:24-27 | every card is in the deck and no two positions hold the same card |
| Combinations.CombosAreExactlyTheSubsets | evaluators.py:166 | the enumeration standing for `combinations(pool, k)` lists exactly the strictly increasing k-tuples of positions (both directions) |
| Combinations.CombosAreValid | evaluators.py:166 | every enumerated combination is a strictly increasing k-tuple of valid positions |
| Combinations.Prepend | evaluators.py:166 | extending each combination by a leading position keeps their number and order |
| Combinations.CombosNonEmpty | evaluators.py:166 | a pool of at least k cards has at least one k-card combination, so the best-hand loops always find a hand |
| Combinations.CombosStart | evaluators.py:277 | the enumeration is lexicographic like `itertools`: first (0..k-1), then (0..k-2, k) |
| Combinations.SingletonsStart | evaluators.py:166 | one-element combinations start with the lowest position, then the next |
| RankCounts.RankCountPermutation | evaluators.py:87-90 | reordering the cards does not change any rank count |
| RankCounts.RankCountBySuit | evaluators.py:87-90 | a rank's count is the number of copies of its four cards |
| RankCounts.DistinctCardsAtMostFourOfARank | evaluators.py:87-90 | distinct cards hold at most four of any rank |
| RankCounts.DistinctRanksIsSortedSet | evaluators.py:74 | the distinct ranks are exactly the present ranks, strictly increasing |
| RankCounts.DescendingValuesIsSortedPermutation | evaluators.py:103-104 | the descending values are a non-increasing permutation of the ranks |
| RankCounts.TiebreakOrderIsKeySorted | evaluators.py:105-109 | the tiebreak order holds exactly the present ranks, sorted by (count, rank) descending |
| RankCounts.TiebreakOrderNoDuplicates | evaluators.py:105-109 | the tiebreak order names each rank once |
| RankCounts.SortedCountsNonIncreasing | evaluators.py:105-109 | the sorted counts are positive and non-increasing |
| RankCounts.SortedCountsSum | evaluators.py:105-109 | the sorted counts add up to the number of cards |
| RankCounts.SortedCountsLength | evaluators.py:105-109 | there is one count per distinct rank |
| RankCounts.SortedCountsMembers | evaluators.py:112-149 | some rank occurs exactly k times iff k is among the sorted counts |
| RankCounts.SortedCountsTwoPairs | evaluators.py:145 | two ranks occur twice iff the sorted counts hold two 2s |
| RankCounts.PartitionsOfFive | evaluators.py:112-154 | the count shapes `evaluate_five` tests are the only ones five cards can have |
| HandEvaluator.IsFlush | evaluators.py:65-67 | true iff all cards share one suit |
| HandEvaluator.OneSuitIffSameSuit | evaluators.py:65-67 | one distinct suit iff every card has the same suit |
| HandEvaluator.StraightIffRun | evaluators.py:70-84 | `is_straight` reports high card h iff the ranks present are exactly h-4..h, or A-2-3-4-5 with h the five |
| HandEvaluator.StraightIsRun | evaluators.py:70-84 | a reported straight is a run of five topped by the reported card |
| HandEvaluator.RunIsStraight | evaluators.py:70-84 | every run of five, the wheel included, is reported with its top card |
| HandEvaluator.StraightMatchesRun | evaluators.py:116-137 | a straight exists iff the ranks form a run; it is ace-high iff the run is ten to ace; a straight has five singletons |
| HandEvaluator.EvaluateFiveWellFormed | evaluators.py:93-154 | every five-card hand gets a category 1..11 and the number of rank tiebreakers that category carries |
| HandEvaluator.EvaluateFiveCategory | evaluators.py:112-154 | the category equals the one the hand's shape calls for, with precedence Five of a Kind > Royal > Straight Flush > Four > Full House > Flush > Straight > Three > Two Pair > Pair > High Card |
| HandEvaluator.EvaluateFiveOrderIndependent | evaluators.py:93-154 | the same five cards in any order get the same value |
| HandEvaluator.SameCountsSameOrders | evaluators.py:87-109 | hands with equal rank counts have equal orders and counts |
| HandEvaluator.NoFiveOfAKindWithoutWilds | evaluators.py:46 | five distinct cards are never Five of a Kind |
| HandComparison.CompareTiebreakers | evaluators.py:180-184 | 0 iff the lists agree on their common length; otherwise the sign is decided by the first differing position |
| HandComparison.CompareHands | evaluators.py:175-184 | the result is 1, 0 or -1 |
| HandComparison.CompareHandsAntisymmetric | evaluators.py:175-184 | swapping the hands negates the result |
| HandComparison.CompareHandsTieIffEqual | evaluators.py:175-184 | on evaluated hands, a tie means equal category and tiebreakers |
| HandComparison.ListGreaterTotal | evaluators.py:169 | two equal-length lists are equal or one is greater |
| HandComparison.BeatsIsStrictTotalOrder | evaluators.py:169 | the tuple order `best_hand` uses is irreflexive, asymmetric, transitive and total |
| HandComparison.NotBeatenTransitive | evaluators.py:169 | "is not beaten by" chains |
| HandComparison.ListGreaterIsCompareOne | evaluators.py:169-184 | on equal lengths, the tuple order and `compare_hands` agree on "greater" |
| HandComparison.BeatsIffCompareHandsWins | evaluators.py:169-184 | on evaluated hands, the tuple order prefers a iff `compare_hands` returns 1 |
| BestHandSearch.FiveCardChoices | evaluators.py:166 | every choice is a valid five-card combination of the pool |
| BestHandSearch.SearchCombos | evaluators.py:164-172 | the loop returns one of the scanned hands; no hand beats it; it strictly beats every earlier hand |
| BestHandSearch.BestHand | evaluators.py:157-172 | the result is a well-formed value of some five cards of hole + community; no five cards beat it; it is the first combination reaching it |
| WildCardEvaluator.WildPositions | evaluators.py:205-212 | the wild indices are within the hand |
| WildCardEvaluator.WildPositionsFacts | evaluators.py:205-212 | a position is listed iff its card's rank is wild |
| WildCardEvaluator.NaturalCardsFacts | evaluators.py:205-212 | wild and natural cards split the hand: naturals are non-wild and every non-wild card is a natural |
| WildCardEvaluator.SubCard | evaluators.py:232-237 | the j-th substitute tried is rank j / 4 and suit j % 4: ranks outer, suits inner |
| WildCardEvaluator.SubstitutionsSound | evaluators.py:225-244 | every generated hand fills each remaining wild position with a distinct card not already used |
| WildCardEvaluator.SubstitutionsComplete | evaluators.py:225-244 | every such filling is generated |
| WildCardEvaluator.SubstitutionsNonEmpty | evaluators.py:225-244 | while enough cards are unused, at least one hand is generated |
| WildCardEvaluator.GenerateSubstitutions | evaluators.py:225-244 | the recursive method appends exactly the generated hands to the accumulator |
| WildCardEvaluator.ExpandWildCards | evaluators.py:191-255 | the method computes the expansion function |
| WildCardEvaluator.SplitWilds | evaluators.py:205-212 | the loop splits the hand into wild positions and natural cards |
| WildCardEvaluator.HeldCards | evaluators.py:218-220 | the used set is exactly the natural cards |
| WildCardEvaluator.ExpansionWithoutWilds | evaluators.py:214-215 | a hand without wild cards expands to itself alone |
| WildCardEvaluator.ExpansionShape | evaluators.py:191-255 | every expansion keeps the naturals, fills wild slots with cards differing from the naturals and from each other, and there are at most cap of them (or the hand itself) |
| WildCardEvaluator.ExpansionComplete | evaluators.py:225-253 | below the cap every valid filling is an expansion |
| WildCardEvaluator.ExpansionNonEmpty | evaluators.py:191-255 | the expansion is never empty |
| WildCardEvaluator.ExpansionDistinct | evaluators.py:191-255 | expanding distinct naturals gives five distinct cards |
| WildCardEvaluator.MostCommonAt | evaluators.py:286-287 | the most common natural rank, ties going to the one seen first, as `Counter.most_common` does |
| WildCardEvaluator.PreCheckIffOneNaturalRank | evaluators.py:282-298 | the pre-check declares Five of a Kind of r iff the combination holds a wild card, a natural, and every natural has rank r |
| WildCardEvaluator.NaturalsShareRank | evaluators.py:282-298 | the naturals list is empty iff no natural is present; all share rank r iff every non-wild card does |
| WildCardEvaluator.SearchWilds | evaluators.py:277-324 | the loop over combinations computes the scan function, with or without the early return |
| WildCardEvaluator.ScanCombosMax | evaluators.py:277-318 | without the early return the scan ends on a value some combination contributes, which no combination's contribution beats |
| WildCardEvaluator.WithoutWildRanks | evaluators.py:269-271 | with no wild ranks the pre-check never fires and a hand expands to itself |
| WildCardEvaluator.BestHandWithWilds | evaluators.py:258-324 | corrected search: a well-formed value that some five cards contribute and that beats or ties every contribution of every five cards |
| WildCardEvaluator.BestHandWithWildsAsWritten | evaluators.py:258-324 | as written: with no wild ranks it is `best_hand`; otherwise it is the scan that stops at the first expanded hand once the best so far is Five of a Kind |
| WildCardEvaluator.EarlyReturnMissesFiveAces | evaluators.py:320-322 | on Q♥ Q♠ 7♣ 5♠ 5♥ A♠ A♥ with Queens and sevens wild, the code returns five fives although five aces are available and beat them |
| WildCardEvaluator.CorrectedSearchFindsFiveAces | evaluators.py:277-324 | on that pool the full search returns five aces |
| WildCardEvaluator.FullSearchDominates | evaluators.py:277-324 | the full search's result is not beaten by any combination's contribution |
| LowHandEvaluator.LowRankValue | evaluators.py:345-348 | low values run 1..13 |
| LowHandEvaluator.CardLowValue | evaluators.py:351-353 | a card's low value is 1..13 |
| LowHandEvaluator.LowRankValueInjective | evaluators.py:345-348 | distinct ranks have distinct low values; the ace is 1; value ≤ 8 iff the rank is A or 2..8 |
| LowHandEvaluator.SortDesc | evaluators.py:384 | sorting in reverse gives a non-increasing permutation |
| LowHandEvaluator.EvaluateLow | evaluators.py:356-403 | a failed low is (99,99,99,99,99); a qualifying one is five values, sorted down, a permutation of the cards' low values |
| LowHandEvaluator.EvaluateLowQualifies | evaluators.py:356-403 | qualifies iff five cards of distinct ranks all eight or lower; then the values strictly decrease within 1..8 |
| LowHandEvaluator.CompareLowHands | evaluators.py:518-541 | the result is 1, 0 or -1 |
| LowHandEvaluator.CompareLowHandsOrder | evaluators.py:518-541 | antisymmetric; a qualifying low beats a non-qualifying one; two failures tie; two qualifiers compare by the lower tuple |
| LowHandEvaluator.AvailableFromFacts | evaluators.py:484-485 | the free low ranks are exactly A..8 minus the used ranks, in rising order |
| LowHandEvaluator.WildLow | evaluators.py:467-508 | a wild low that is made qualifies |
| LowHandEvaluator.WildLowSkipped | evaluators.py:474-491 | a combination with wild cards is skipped iff a natural card is above eight or two naturals pair |
| LowHandEvaluator.WildLowMade | evaluators.py:483-508 | a made wild low is five strictly decreasing values: the naturals plus the lowest free ranks of A..8 |
| LowHandEvaluator.ChosenLowest | evaluators.py:483-492 | with at most five used ranks, enough free ranks exist and the first w are the lowest |
| LowHandEvaluator.WildValuesDistinct | evaluators.py:483-495 | naturals without pairs plus unused free ranks never repeat a value |
| LowHandEvaluator.Offer | evaluators.py:460-508 | what a combination offers the search is a qualifying low |
| LowHandEvaluator.OfferWithoutWilds | evaluators.py:460-465 | with no wild ranks a combination offers its own evaluation when it qualifies |
| LowHandEvaluator.LowScanSmallest | evaluators.py:418-432 | the scan finds nothing iff no combination offers a low; otherwise its low is not above any offered one and is the first offered low that small |
| LowHandEvaluator.LowOutcomeIsSmallest | evaluators.py:406-515 | the result qualifies iff some five cards offer a low; a failure is "No Low"; a success is offered by some five cards and no five cards offer a lower one |
| LowHandEvaluator.BestLowHand | evaluators.py:406-432 | the loop computes the low outcome with no wild ranks |
| LowHandEvaluator.BestLowHandWithWilds | evaluators.py:435-515 | the loop computes the low outcome with the wild ranks |
| PokerTable.Min | game_classes.py:153 | the minimum of two amounts |
| PokerTable.Where | game_classes.py:133-139 | the seats whose players pass the filter, in seat order, all of them |
| PokerTable.TotalChipsUpdate | game_classes.py:141-194 | changing one player's stack changes the total by the difference |
| PokerTable.Skip | game_classes.py:124-131 | the turn pointer stays on the table |
| PokerTable.SkipStaysOnAble | game_classes.py:124-131 | a player who can act keeps the turn |
| PokerTable.SkipLands | game_classes.py:124-131 | the pointer lands on the first player clockwise who can act, or after one lap gives up |
| PokerTable.SkipFindsAble | game_classes.py:124-131 | when anybody can act, the pointer lands on someone who can |
| PokerTable.ActRefusedIff | game_classes.py:141-194 | an action is refused iff it is a check facing a bet, or a raise below twice the bet that is not the whole stack |
| PokerTable.ActConservesChips | game_classes.py:141-185 | an accepted action keeps pot plus stacks constant and touches only the actor, pot, bet and last raiser; the actor is all-in iff they were or their stack is empty |
| PokerTable.ActMovesChips | game_classes.py:152-185 | call moves min(owed, stack); raise moves min(target - bet, stack), sets the bet to match and the last raiser; all-in moves the stack and raises only above the current bet; the rest move nothing |
| PokerTable.ShortRaiseLowersBet | game_classes.py:160-172 | a 50-chip player facing 100 who raises to 200 is accepted and lowers the bet to match to 50 |
| PokerTable.CompleteFacts | game_classes.py:196-222 | the round completes iff it already was, one player is left, nobody can act, or all matched with the turn back at the raiser; a lone player goes to showdown |
| PokerTable.AdvanceFacts | game_classes.py:187-192 | passing the turn changes only the turn, phase and round flag, moves to the next seat that can act and never reopens the round |
| PokerTable.RespondFacts | game_classes.py:141-194 | a refused action changes nothing; an accepted one conserves chips, passes the turn, keeps the deck and dealer, and never reopens the round |
| PokerTable.AcceptedFacts | game_classes.py:141-194 | the same for an action known to be accepted |
| PokerTable.LoneWinnerFoldsAgain | game_classes.py:141-208 | when the second-last player in folds, the hand goes to the showdown with the turn on the last player in, whose own fold is accepted too: nobody is left in the hand and the phase stays the showdown |
| PokerTable.SharesSplitPot | game_classes.py:267-280 | the shares add up to the pot, differ by at most one chip and go to the earliest winners first |
| PokerTable.CreditAddsUp | game_classes.py:267-280 | crediting shares raises the total stacks by their sum |
| PokerTable.CreditOnlyStacks | game_classes.py:267-280 | crediting changes only winners' stacks |
| PokerTable.SplitPaysPot | game_classes.py:267-280 | splitting a pot adds exactly the pot to the stacks |
| PokerTable.Leaders | game_classes.py:245-265 | the best index is -1 iff no player has been considered, and otherwise indexes one of them |
| PokerTable.LeadersAmongSeats | game_classes.py:245-265 | the winners are non-empty and drawn from the players considered |
| PokerTable.LeadersAreBest | game_classes.py:245-265 | for any ranking comparison the loop ends on a best value, and the winners are exactly the seats tying with it |
| PokerTable.HandsRanked | evaluators.py:175-184 | `compare_hands` is a ranking on evaluated hands |
| PokerTable.LowsRanked | evaluators.py:518-541 | `compare_low_hands` is a ranking on qualifying lows |
| PokerTable.HighWinnersHoldBest | game_classes.py:245-280 | the high winners are exactly the active seats whose hand no other beats |
| PokerTable.BestSeats | game_classes.py:245-265 | the high winners are players with an evaluated hand |
| PokerTable.BestSeatsTie | game_classes.py:245-280 | every winner holds the best hand, and every active seat holding it wins |
| PokerTable.KeptMembers | game_classes.py:95 | dropping busted players keeps exactly those with chips, in order |
| PokerTable.KeptTotal | game_classes.py:95 | dropping only busted players loses no chips |
| PokerTable.RemainingKeepsChips | game_classes.py:84-99 | the per-hand reset and the busting step keep the chip total |
| PokerTable.RemainingSeats | game_classes.py:84-99 | the remaining players have chips, no bet, are neither folded nor all-in, and are renumbered from zero (`game_classes.py`) or keep their ids (`app.py`) |
| PokerTable.ReseatFacts | game_classes.py:75-111 | a new hand starts with an empty pot, no bet, an open round, the new deck and first phase, the chips kept and the button one seat on |
| PokerTable.DealPass | game_classes.py:437-442 | one card per player still in, taken from the end of the deck |
| PokerTable.DealPassFacts | game_classes.py:798-813 | the j-th player still in gets the j-th card from the end, and the deal record says so |
| PokerTable.DealPassOnlyCards | game_classes.py:798-813 | dealing changes only players' cards |
| PokerTable.DealPassDeck | game_classes.py:798-813 | the deck loses exactly the dealt cards from its end |
| PokerTable.AntesFacts | game_classes.py:430-435 | antes move min(ante, stack) from each stack to the pot and touch nothing else |
| PokerTable.NewStreetFacts | game_classes.py:449-453 | a new betting round zeroes bets, keeps chips and pot, and reopens the round |
| PokerTable.OpenRoundFacts | game_classes.py:479-486 | the turn goes to the first player left of the dealer who can act, who becomes the last raiser; the round is over at once iff at most one player can act |
| PokerTable.Table.constructor | game_classes.py:25-37 | the seated players, an empty pot and deck, no bet, the first phase, dealer and turn at seat 0, no last raiser and the round open |
| PokerTable.Table.Pop | game_classes.py:441 | the card taken is the deck's last |
| PokerTable.Table.SkipFoldedPlayers | game_classes.py:124-131 | the loop moves the pointer as the skip function says |
| PokerTable.Table.CheckRoundComplete | game_classes.py:196-222 | the method computes the round-completion function |
| PokerTable.Table.PlayerAction | game_classes.py:141-194 | the method computes the response function: refused and unchanged, or acted and the turn passed |
| PokerTable.Table.PassTurn | game_classes.py:187-192 | the turn passes and the round is checked |
| PokerTable.Table.ApplyAction | game_classes.py:141-185 | the method applies the action function or refuses |
| PokerTable.Table.CallCurrent | game_classes.py:152-158 | the call branch leaves the table as the action function's call outcome |
| PokerTable.Table.RaiseCurrent | game_classes.py:160-174 | the raise branch is refused exactly when the action function refuses it, and otherwise leaves its outcome |
| PokerTable.Table.AllInCurrent | game_classes.py:176-185 | the all-in branch leaves the table as the action function's all-in outcome |
| PokerTable.Table.ResetForNewHand | game_classes.py:75-111 | the table after `new_hand`'s common part, continuing iff two players remain |
| PokerTable.Table.ResetPlayers | game_classes.py:84-99 | the players after the reset, busting and renumbering |
| PokerTable.Table.ClearPlayers | game_classes.py:84-91 | per-hand fields cleared |
| PokerTable.Table.DropBusted | game_classes.py:95 | busted players dropped |
| PokerTable.Table.RenumberSeats | game_classes.py:97-104 | ids renumbered from zero |
| PokerTable.Table.ClearBets | game_classes.py:450-451 | every bet zeroed, nothing else |
| PokerTable.Table.Deal | game_classes.py:798-813 | the method computes the deal function |
| PokerTable.Table.OpenBetting | game_classes.py:479-486 | the method computes the round-opening function |
| PokerTable.Table.StartStreet | game_classes.py:449-453 | the method computes the new-street function |
| PokerTable.Table.PostAntes | game_classes.py:430-435 | pot plus stacks unchanged; each stack pays its ante |
| PokerTable.Table.PayLoneWinner | game_classes.py:236-243 | the last player in gets the whole pot, in one entry |
| PokerTable.Table.PaySplit | game_classes.py:267-280 | winners credited with the split shares; the stacks gain exactly the total |
| PokerTable.Table.BestHighSeats | game_classes.py:245-265 | the loop finds the best-hand seats |
| PokerTable.Table.PayBestHands | game_classes.py:245-285 | the best hands split the pot and the stacks gain exactly the pot |
| Holdem.BlindsFacts | app.py:736-754 | small and big blinds come from the two seats left of the dealer, capped by stacks; the bet to match is the big blind and the big blind is the last raiser |
| Holdem.PostBlindFacts | app.py:742-752 | a blind never overdraws a stack and conserves chips |
| Holdem.HoleDeal | game_classes.py:437-442 | one player per seat after dealing |
| Holdem.HoleCardsDealt | game_classes.py:437-442 | two passes: seat j gets the j-th and (n+j)-th cards from the end |
| Holdem.HoleDealKeepsChips | game_classes.py:437-442 | dealing keeps chips |
| Holdem.Posted | game_classes.py:430-435 | forced bets keep the number of players and the deck |
| Holdem.PostedFacts | app.py:736-754 | antes or blinds conserve chips and change only stacks, bets, pot and, with blinds, the bet to match and last raiser |
| Holdem.OpeningFacts | game_classes.py:418-442 | after forced bets and hole cards the chips are conserved, each seat has its two cards, and the turn starts at dealer + 1 (antes) or dealer + 3 (blinds) |
| Holdem.BigBlindGetsNoOption | app.py:724-754 | three players, blinds 10/20: after two calls the round is complete and the big blind never acts |
| Holdem.StreetFacts | game_classes.py:444-477 | a street burns the deck's last card and moves the next cards from the end onto the board: three on the flop, one on the turn and on the river, none after the river |
| Holdem.BoardFollowsPhase | game_classes.py:444-473 | starting from a board that fits the phase, the next street's board fits its phase, at most five cards |
| Holdem.StaleBoardAtNextFlop | game_classes.py:75-114 | a river board left over does not fit pre-flop, and the next flop builds an eight-card board that fits no phase |
| Holdem.BestHandOfUnique | evaluators.py:157-172 | a best hand of a pool is unique |
| Holdem.EvaluatedKeepsStacks | game_classes.py:490-499 | evaluating touches only hand results |
| Holdem.EvaluatedHoldBest | game_classes.py:490-499 | each player still in holds the best hand of hole + community |
| Holdem.ShowdownPaysBest | game_classes.py:245-285 | the winners hold a hand no active player beats |
| Holdem.HoldemGame.constructor | game_classes.py:404-411 | the seated players, an empty pot and deck, no bet, pre-flop, dealer and turn at seat 0, no last raiser and an empty board; seat ids are renumbered iff the game uses antes |
| Holdem.HoldemGame.PostBlinds | app.py:736-754 | the method computes the blinds function |
| Holdem.HoldemGame.PostForced | game_classes.py:430-435 | the method computes antes or blinds |
| Holdem.HoldemGame.DealHoleCards | game_classes.py:437-442 | the method computes the hole deal |
| Holdem.HoldemGame.InitializeHand | game_classes.py:418-428 | the method computes the opening |
| Holdem.HoldemGame.DealFlop | game_classes.py:455-460 | one card burned, three added to the board |
| Holdem.HoldemGame.DealOne | game_classes.py:462-472 | one card burned, one added |
| Holdem.HoldemGame.EvaluateHands | game_classes.py:490-499 | every player still in gets the best hand |
| Holdem.HoldemGame.AdvancePhase | game_classes.py:444-488 | nothing before the round completes; then a street and an opened round, or the river's showdown with hands evaluated |
| Holdem.HoldemGame.PlayStreet | game_classes.py:444-488 | one street dealt and betting opened |
| Holdem.HoldemGame.PlayRiver | game_classes.py:474-477 | showdown with hands evaluated |
| Holdem.HoldemGame.DetermineWinners | game_classes.py:232-285 | a lone player takes the pot; otherwise the best hands split it; stacks gain exactly the pot (which is not zeroed) |
| Holdem.HoldemGame.NewHand | game_classes.py:75-114 | corrected new hand: board cleared, table reseated and opened |
| Holdem.HoldemGame.NewHandAsWritten | game_classes.py:75-114 | as written: the board is left as it was |
| FollowTheQueen.IndexOf | game_classes.py:661 | `list.index`: the first position holding the entry |
| FollowTheQueen.QueensIn | game_classes.py:653 | the Queens among the dealt cards, and all of them |
| FollowTheQueen.Changes | game_classes.py:660-680 | one history entry per Queen processed |
| FollowTheQueen.QueenChangesRecord | game_classes.py:645-680 | one history entry per Queen dealt; entry k is the k-th Queen in deal order, at its position in the batch, and names the phase, the Queen, its player and the rank dealt right after it, or Queen when it was dealt last |
| FollowTheQueen.QueenPositions | game_classes.py:653 | the positions of the batch's Queens, strictly increasing, each holding the Queen listed at the same place |
| FollowTheQueen.ChangesEntries | game_classes.py:658-680 | entry k of the loop's history is built from the k-th Queen of the list |
| FollowTheQueen.NoQueenNoChange | game_classes.py:655-656 | no Queen: no history and the wild rank stays |
| FollowTheQueen.LastQueenDecides | game_classes.py:659-673 | the wild rank ends as the rank following the last Queen |
| FollowTheQueen.QueenThenSeven | game_classes.py:664-667 | a Queen then a seven makes sevens wild |
| FollowTheQueen.QueenDealtLast | game_classes.py:668-670 | a Queen dealt last leaves only Queens wild |
| FollowTheQueen.SuitOrder | game_classes.py:614 | clubs < diamonds < hearts < spades |
| FollowTheQueen.LowestDoor | game_classes.py:612-633 | the seat found shows a door card |
| FollowTheQueen.LowestDoorIsLowest | game_classes.py:612-633 | nothing found iff nobody in shows a card; otherwise the lowest (rank, suit) and earliest on ties |
| FollowTheQueen.BringIn | game_classes.py:612-633 | with anyone seated, the bring-in is one of their seats |
| FollowTheQueen.BringInIsLowest | game_classes.py:612-633 | the lowest door card brings in, or seat 0 when nobody shows one |
| FollowTheQueen.BringInFacts | game_classes.py:635-643 | the bring-in is min(amount, stack), becomes the bet to match and the last raiser, and touches no other seat |
| FollowTheQueen.ThirdStreetDeal | game_classes.py:571-591 | third street takes three cards per seat from the deck and records one up card per seat |
| FollowTheQueen.ThirdStreetFacts | game_classes.py:571-591 | each seat gets two down cards then one up card from the deck's end, seat by seat |
| FollowTheQueen.ThirdStreetOnlyCards | game_classes.py:571-591 | dealing third street changes only cards |
| FollowTheQueen.ThirdStreetUpsDistinct | game_classes.py:589-591 | the up-card record has no repeats |
| FollowTheQueen.AntedAndDealt | game_classes.py:559-591 | one player per seat after antes and the deal |
| FollowTheQueen.AntedAndDealtFacts | game_classes.py:559-591 | antes conserve chips; the deck loses 3n cards; every seat gets its two down and one up card |
| FollowTheQueen.StudOpeningFacts | game_classes.py:553-603 | the opening conserves chips, makes the lowest door card the bring-in, last raiser and first to act, and sets the wild rank from the Queens on third street |
| FollowTheQueen.OpeningDealsThird | game_classes.py:553-603 | after the opening everybody holds two down cards and one up card |
| FollowTheQueen.StreetDealsOne | game_classes.py:798-813 | after a street every player still in holds the down and up card counts of the next phase |
| FollowTheQueen.SeventhHoldsSeven | game_classes.py:754-782 | on seventh street every player still in has seven cards |
| FollowTheQueen.DealPassNoRepeats | game_classes.py:798-813 | the dealt-card record never repeats an entry |
| FollowTheQueen.StudEvaluatedKeepsStacks | game_classes.py:815-844 | evaluating touches only hand and low results |
| FollowTheQueen.StudEvaluatedKeepsDealt | game_classes.py:815-844 | evaluating keeps the card counts |
| FollowTheQueen.StudEvaluatedHands | game_classes.py:815-844 | every player still in gets a well-formed high hand and, in Hi-Lo, the best low of their cards |
| FollowTheQueen.Qualifiers | game_classes.py:930-933 | the seats listed hold a qualifying low |
| FollowTheQueen.QualifiersComplete | game_classes.py:929-931 | every active seat with a qualifying low is listed |
| FollowTheQueen.LowSeats | game_classes.py:926-945 | the low winners hold qualifying lows |
| FollowTheQueen.LowLeadersBest | game_classes.py:926-945 | the low loop ends on a low no qualifier goes under, and its winners are exactly the seats that tie it |
| FollowTheQueen.LowWinnersHoldBest | game_classes.py:926-945 | no low winner iff nobody qualifies; otherwise every winner holds the lowest low and every seat holding it wins |
| FollowTheQueen.FirstHigh | game_classes.py:993-1001 | the first high entry for a seat, or none |
| FollowTheQueen.PaidMergeLow | game_classes.py:987-1008 | adding a low share (merged or new) raises the payout total by it |
| FollowTheQueen.PaidMergeLows | game_classes.py:983-1008 | all low shares raise the payout total by their sum |
| FollowTheQueen.MergeLowStep | game_classes.py:992-1008 | a low winner who won high becomes one scoop entry, otherwise a low entry |
| FollowTheQueen.MergeLowsClassified | game_classes.py:983-1008 | after all lows every entry is high, low or scoop and every winner has one entry |
| FollowTheQueen.SplitPaysOut | game_classes.py:907-924 | a split pot's entries add up to the pot |
| FollowTheQueen.HiLoPaid | game_classes.py:963-1008 | the Hi-Lo entries add up to the pot |
| FollowTheQueen.HiLoPayoutsFacts | game_classes.py:963-1008 | the Hi-Lo entries add up to the pot, are correctly labelled, and each winner has exactly one entry |
| FollowTheQueen.NextStreetFacts | game_classes.py:754-796 | one street: bets zeroed, chips kept, one card per player in, the next phase, betting reopened |
| FollowTheQueen.DealtStreetPlayers | game_classes.py:759-780 | a street zeroes every bet, keeps pot and stacks, folds nobody and moves to the next phase |
| FollowTheQueen.DealtStreetCards | game_classes.py:798-813 | the deck loses exactly the cards dealt, no dealt entry repeats, and the card counts follow the phase |
| FollowTheQueen.DealPassHeld | game_classes.py:798-813 | a dealing pass moves cards from the deck into the hands and loses none |
| FollowTheQueen.DealPassHeldEach | game_classes.py:801-811 | a dealing pass gives each seat at most one card |
| FollowTheQueen.StreetKeepsOneDeck | game_classes.py:754-813 | a street keeps every stud card in one 52-card deck, and nobody past the phase's card count |
| FollowTheQueen.OpeningOneDeck | game_classes.py:553-603 | an opening from a full deck leaves 3 cards per player and the rest of the deck, all from one deck |
| FollowTheQueen.SevenSeatsStreetDealable | game_classes.py:798-813 | with at most seven seats and one deck, the deck always holds a card for every player still in |
| FollowTheQueen.SevenSeatsDealStreets | game_classes.py:754-813 | with at most seven seats, every street still due can be dealt |
| FollowTheQueen.SevenSeatsDealEveryStreet | game_classes.py:553-813 | corrected: with at most seven players, third to seventh street are dealt from one deck without running short |
| FollowTheQueen.AllInStreets | game_classes.py:754-813 | streets with nobody folded take one card per seat each and fold nobody |
| FollowTheQueen.AllInStreetsShort | game_classes.py:798-813 | streets with nobody folded run short exactly when fewer cards remain than one per seat per street |
| FollowTheQueen.EightSeatsExhaustDeck | game_classes.py:798-813 | as written: eight players who stay in leave 4 cards at sixth street for the 8 of seventh street |
| FollowTheQueen.LeadersExtend | game_classes.py:891-905 | one more player replaces, joins or leaves the winners |
| FollowTheQueen.LowTallyLeaders | game_classes.py:926-945 | the low loop's state is the leader function on the qualifiers so far |
| FollowTheQueen.RemainingHoldNoCards | game_classes.py:547-551 | a new hand starts with no stud cards |
| FollowTheQueen.StudGame.constructor | game_classes.py:520-528 | the seated players on an empty table at third street, Queens wild, no history; seat ids renumbered on each new hand and payouts labelled exactly when built to (the `game_classes.py` game, not the `app.py` copy) |
| FollowTheQueen.StudGame.CheckForQueens | game_classes.py:645-680 | the method computes the Queen-change function |
| FollowTheQueen.StudGame.CollectQueens | game_classes.py:652-653 | the Queens of the batch, each one taken from it, in deal order |
| FollowTheQueen.StudGame.RecordQueens | game_classes.py:658-680 | one history entry per Queen, naming the rank dealt right after it; the wild rank ends as the one named last |
| FollowTheQueen.StudGame.DetermineBringIn | game_classes.py:612-633 | the method computes the bring-in |
| FollowTheQueen.StudGame.PostBringIn | game_classes.py:635-643 | the method computes the bring-in post |
| FollowTheQueen.StudGame.DealThirdStreet | game_classes.py:571-591 | the method computes the third-street deal |
| FollowTheQueen.StudGame.AnteAndDeal | game_classes.py:559-591 | antes then third street |
| FollowTheQueen.StudGame.InitializeHand | game_classes.py:553-603 | the method computes the opening |
| FollowTheQueen.StudGame.DealStreetCards | game_classes.py:798-813 | one card per player in, and Queens checked when face up |
| FollowTheQueen.StudGame.EvaluateHands | game_classes.py:815-844 | high hands with wilds and, in Hi-Lo, lows |
| FollowTheQueen.StudGame.PlayNextStreet | game_classes.py:754-796 | one street dealt and betting reopened |
| FollowTheQueen.StudGame.PlayShowdown | game_classes.py:782-785 | showdown with hands evaluated |
| FollowTheQueen.StudGame.AdvancePhase | game_classes.py:754-796 | nothing before the round completes; then a street, or the showdown |
| FollowTheQueen.StudGame.FindHigh | game_classes.py:993-1001 | the loop finds the first high entry for a seat |
| FollowTheQueen.StudGame.BestLowSeats | game_classes.py:926-945 | the low loop finds the low winners |
| FollowTheQueen.StudGame.PayLows | game_classes.py:983-1008 | the low half is split and merged into the entries |
| FollowTheQueen.StudGame.PayHiLo | game_classes.py:963-1008 | high half (rounded down) to the high winners, the rest to the low winners |
| FollowTheQueen.StudGame.PayShowdown | game_classes.py:884-1011 | the showdown pays exactly the pot: all to the best high hands, or split high and low; the high-only entries are labelled `high` (a scoop in Hi-Lo) by the override and unlabelled by the base version (`app.py:556-589`) |
| FollowTheQueen.StudGame.DetermineWinners | game_classes.py:846-1011 | a lone player takes the pot, in an entry labelled `fold` by the override and unlabelled by the base version (`app.py:549-554`); otherwise the showdown pays exactly the pot |
| FollowTheQueen.StudGame.NewHand | game_classes.py:75-114 | the table reseated and opened on third street, with the wild rank restarted from Queens; the hand continues iff two players remain |

## Left out

- Shuffling (`shuffle_deck`, `evaluators.py:29-36`) is random: the shuffled deck is a parameter of `NewHand`, and `Pop` takes its last card.
- The web layer, lobby and sessions are not modelled: Flask and Socket.IO handlers, `get_state`, `add_player`, `get_player_by_session`, player names and sessions, and the bots' `ai_action`.
- Display-only fields are not modelled: `last_win`, `game_started`, `cards_revealed`, `is_human`/`is_bot` and a card's symbol.
- The hand-name strings are modelled only through `CategoryName` and the low names.
- The stud "two natural sevens win" rule and the `deal_sevens_to_michael` debug deal are not modelled. Both are off by default.
- The `app.py` copy of the stud game (`app.py:834-1120`) is modelled by `FollowTheQueen.StudGame` built with `hiLo`, `renumbers` and `labels` all false. Its `new_hand` (`app.py:400-430`) drops busted players without renumbering seat ids or rebuilding sessions. It has no `determine_winners` of its own and pays through the base one (`app.py:546-589`): the same split as the `game_classes.py` high-only payout, with entries that carry no `win_type` (`Unlabelled`). The base version also never sets `last_win` or `game_started`, which are display fields and not modelled. Sessions are not modelled either (see above).
- Concurrency between socket handlers is not modelled. Every method runs alone.
- FollowTheQueen.StudGame.AdvancePhase: requires a deck holding one card per player still in whenever a street is due. As written, `_deal_street_cards` (`game_classes.py:804`, `app.py:1027`) pops an empty deck and raises `IndexError` at seventh street when eight players stay in, and the table allows eight (`app.py:1124`). That crash is not modelled as a state; it is exhibited under Findings.
- FollowTheQueen.StudGame.PlayNextStreet: the same requirement and the same `IndexError`, not modelled as a state (see Findings).
- FollowTheQueen.StudGame.DealStreetCards: the same requirement and the same `IndexError`, not modelled as a state (see Findings).
- PokerTable.Table.PlayerAction: an omitted amount is the default `0` (`game_classes.py:141`, `app.py:457`, and the handlers pass `0` when the message has none), modelled as `Some(0)`. Only an explicit `None` (a JSON null) is `None`: `game_classes.py:161-162` then raises to twice the bet to match, which the model follows, while `app.py:477` would compare `None` with an integer and fail with a `TypeError`, which is not modelled.
- WildCardEvaluator.BestHandWithWilds: optimality is proved only over the substitutions the 10000-candidate cap keeps. A hand beyond the cap is not claimed to be dominated.
- Holdem.HoldemGame.DetermineWinners: requires at least one player in the hand, and, with two or more, five cards for each of them (`Showable`). Neither is checked by the source. After a win by folds the turn stays with the last player in, whose fold is still accepted (`PokerTable.LoneWinnerFoldsAgain`). The handler then calls `determine_winners` at the showdown (`app.py:1366-1367`) with nobody in the hand, and `self.pot // len(best_players)` raises `ZeroDivisionError` (`game_classes.py:268`, `app.py:579`). A `determine_winner` message before the river makes `best_hand` find no five-card combination and raise `TypeError` (`evaluators.py:172`). Neither crash is modelled as a state.
- FollowTheQueen.StudGame.DetermineWinners: the same two requirements, with five cards for each player in (`Evaluable`). With nobody in the hand, the split raises `ZeroDivisionError` (`game_classes.py:908` and `950`, `app.py:579`). Before seventh street, `best_hand_with_wilds` finds no five-card combination and raises `TypeError` (`evaluators.py:324`). Neither crash is modelled as a state.
- FollowTheQueen.StudGame.EvaluateHands: uses the corrected wild search without the early return (see Findings). The as-written search is modelled separately.

## Findings

| source | as written | input that shows it | evidently intended | confidence | as-written member | corrected member |
|---|---|---|---|---|---|---|
| evaluators.py:320-322 | Once the best so far is Five of a Kind, the next expanded hand returns it. A Five of a Kind found by the pre-check of a later combination is never seen. | Pool Q♥ Q♠ 7♣ 5♠ 5♥ A♠ A♥, with Queens and sevens wild. The first combination pre-checks five fives, and the second returns them. The combination Q♥ Q♠ 7♣ A♠ A♥ makes five aces. | The best hand over all combinations: five aces. | not executed | WildCardEvaluator.EarlyReturnMissesFiveAces | WildCardEvaluator.CorrectedSearchFindsFiveAces |
| game_classes.py:798-813 | Each street pops one card per player still in, with no check that the deck has them. The table holds up to eight players (`app.py:1124`). | Eight players who all stay in: third street takes 24 cards, fourth to sixth 8 each, leaving 4 of 52 cards for the 8 of seventh street, so `deck.pop()` raises `IndexError`. | At most seven players at a stud table: 7 × 7 = 49 cards, so every street can be dealt from one deck whoever folds. | not executed | FollowTheQueen.EightSeatsExhaustDeck | FollowTheQueen.SevenSeatsDealEveryStreet |
| game_classes.py:75-114 | `new_hand` never clears the Hold'em board. Only `reset_game` does (`game_classes.py:408-411`, `app.py:714-717`). | After a hand that reached the river, the next flop adds three cards to the stale five-card board, making eight. | An empty board at the start of every hand. | not executed | Holdem.StaleBoardAtNextFlop | Holdem.HoldemGame.NewHand |
