# Tichu rules engine in Dafny

This project models the rules engine of an online Tichu game for four
players, and proves properties of the model. The original is written in
Python and has these parts:

- the card and deck records (`game_logic/card.py`);
- the player with a hand and a pile of won cards (`game_logic/player.py`);
- the combo classifier and ranker (`game_logic/combo.py`);
- the game state of one match (`game_logic/game.py`): teams, dealing, the card pass,
  the starting player, turn order, play legality and round settlement;
- the image file name codec (`game_logic/Helpers.py`, `app.py`);
- the state effects of two socket handlers (`app.py`): passing on a trick and
  giving away a trick won with the Dragon.

Modules:

| file | module | models |
|---|---|---|
| `wrappers.dfy` | `Wrappers` | `Option` and `Result` |
| `text.dfy` | `Text` | the few `str` operations used: ASCII `lower()`, `replace(".png", "")`, counting and finding a character |
| `cards.dfy` | `Cards` | `TichuCard`, `create_tichu_deck`, point sums |
| `helpers.dfy` | `Helpers` | `card_to_filename`, `flatten` |
| `combo_ranks.dfy` | `RankRuns` | `sorted(set(..))`, insertion into a sorted run, consecutive runs |
| `combo.dfy` | `Combos` | `Combo.__init__`, `identify_combo_type`, `is_straight`, `get_rank` |
| `combo_props.dfy` | `ComboFacts` | the classification rules and rank bounds |
| `combo_examples.dfy` | `ComboExamples` | two Phoenix straights worked out |
| `players.dfy` | `Players` | `TichuPlayer` as the class `Player` |
| `scoring.dfy` | `Scoring` | the arithmetic of `calculate_round_points` |
| `game.dfy` | `Game` | `TichuGame` as the class `TichuGame` |
| `app.dfy` | `App` | `filenames_to_cards` and the state changes of `handle_pass` and `handle_dragon_recipient_selected` |

Design:

- **Records.**
  - A card is a value (`Cards.Card`), as a `TichuCard` is never changed after it is built.
  - A combo is a value (`Combos.Combo`). `Combos.MakeCombo` takes the rank of the top of the current trick as a parameter, in place of the back reference to the game.
- **Classes.**
  - Players and the game are classes whose methods change their fields in place.
  - A hand and a trick pile are `seq<Card>` fields.
- **Ranks in halves.** A rank is an integer counted in halves: `rankHalves` is twice the source's `rank`. The Phoenix single is half a rank above the trick, so each source rank is exact as an integer. For example:
  - 1.5 is 3;
  - 14.5 is 29;
  - the rank -1 of Dog and invalid combos is -2.
- **Errors as values.** Every exception of the modelled code is an error value the method returns:
  - the `KeyError` and `ValueError` of `pass_cards` (`Game.PassError`);
  - the `ValueError` of `filenames_to_cards` (`App.CardError`);
  - the `IndexError` of `calculate_round_points` on an empty finishing list (`None`).

  The state change made before the error is kept and stated, as the source keeps it.
- **The game as a parameter.** The socket handlers take the game as a parameter. The player found for the socket session is an `Option<Player>` parameter.

Where the code departs from the usual Tichu rules, the model follows the code:

- **Phoenix straights.** A Phoenix fills one inner gap of a straight. So Phoenix, 3, 4, 5, 7 is a straight (`ComboExamples.PhoenixFillsInnerGap`).
- **Closing a trick.** A trick closes after four passes, counted with `pass_count >= 4`. The threshold does not depend on how many players are still in.
- **Card passing.** `pass_cards` sends a seat's three cards to the next three seats in a fixed order. It applies seat by seat and stops at the first error. Seats handled before the error keep their exchange.
- **Scoring.** There is no Tichu, Grand Tichu or double-victory scoring.

## Model

| member | source | states |
|---|---|---|
| Cards.IdUnderscore | game_logic/card.py:9-12 | when names and suits hold no underscore, an id holds one exactly when its card has a non-empty suit |
| Cards.IdDecodes | game_logic/card.py:9-12 | when names and suits hold no underscore, two cards with the same id have the same name, are both suited or both not, and then have the same suit |
| Cards.Lt | game_logic/card.py:17-18 | `<` on cards compares ranks and nothing else |
| Cards.TichuDeck | game_logic/card.py:21-40 | the deck has 56 cards |
| Cards.CreateTichuDeck | game_logic/card.py:21-40 | the nested loops and the four appends build exactly the deck `TichuDeck` |
| Cards.DeckAt | game_logic/card.py:29-38 | position i < 52 holds name i % 13 of suit i / 13; positions 52 to 55 hold Mah Jong, Dog, Phoenix and Dragon |
| Cards.DeckValues | game_logic/card.py:22-38 | standard cards rank 2 to 14 in the order 2 to A, with their points from the point map; specials have no suit; every rank lies in -1..15 |
| Cards.SuitPoints | game_logic/card.py:25-32 | the 13 cards of each suit are worth 25 points |
| Cards.DeckPoints | game_logic/card.py:25-38 | the whole deck is worth 100 points |
| Cards.DeckIdsDistinct | game_logic/card.py:9-12 | the 56 cards of the deck have 56 different ids |
| Helpers.CardToFilename | game_logic/Helpers.py:4-8 | the name ends in `.png`; before it is `suit_name` for a suited card and the bare name otherwise |
| Helpers.Flatten | game_logic/Helpers.py:11-12 | the inner lists one after the other |
| Helpers.FlattenLength | game_logic/Helpers.py:11-12 | the flattened list is as long as the inner lists together |
| Helpers.FlattenSnoc | game_logic/Helpers.py:11-12 | flattening keeps order: one more inner list adds its elements at the end |
| Helpers.FlattenMembers | game_logic/Helpers.py:11-12 | an element is in the flattened list exactly when it is in one of the inner lists |
| Helpers.FlattenPoints | game_logic/Helpers.py:11-12 | the points of the flattened list are the points of the inner lists added up |
| RankRuns.SortedSet | game_logic/combo.py:69 | `sorted(set(values))` is strictly increasing and holds exactly the values of the input |
| RankRuns.Insert | game_logic/combo.py:80 | the trial list holds the old values and the trial value |
| RankRuns.ConsecutiveIffContiguous | game_logic/combo.py:72-74 | for an increasing run, every step being +1 is the same as the span being length minus one |
| RankRuns.InsertConsecutive | game_logic/combo.py:79-84 | a trial value in [min, max+1] gives a consecutive run exactly when it is new and either the run had no hole and the value is max+1, or the run had exactly one hole |
| RankRuns.MissingInside | game_logic/combo.py:79-84 | a run spanning one more value than it has elements misses a value strictly inside it |
| Combos.DistinctNames | game_logic/combo.py:13-17 | the keys of `counts` are the card names, each once |
| Combos.StraightOf | game_logic/combo.py:62-86 | the straight test stated by the span of the distinct ranks, with and without the Phoenix |
| Combos.IsStraight | game_logic/combo.py:62-86 | the loop answers true exactly when `StraightOf` finds a straight, and sets the top flag exactly when the Phoenix goes on top |
| Combos.TryPhoenixValues | game_logic/combo.py:76-84 | trying each Phoenix value from min to max+1 succeeds exactly when the run has no hole or exactly one; it succeeds at max+1 exactly when it has no hole |
| Combos.TrialSucceeds | game_logic/combo.py:79-84 | the first value that completes the run is max+1 exactly when the run had no hole |
| Combos.NoTrialSucceeds | game_logic/combo.py:79-86 | when no trial value completes the run, the run has more than one hole |
| Combos.KindOf | game_logic/combo.py:11-60 | dog or single exactly for one card, a dog only for the Dog; each kind has its card count; a straight has distinct ranks; a straight bomb is one suit and a plain straight is not |
| Combos.MaxRank | game_logic/combo.py:119-120 | the maximum rank is held by some card and no card exceeds it |
| Combos.RankOf | game_logic/combo.py:88-121 | `get_rank`, kind by kind, in halves |
| Combos.MakeCombo | game_logic/combo.py:2-121 | the Phoenix and Dragon flags say whether such a card is present; the Phoenix-on-top flag is set only for a straight whose Phoenix completes the top; the rank by kind: dog and invalid -1; a plain single the card's rank; the Phoenix single min(top + 0.5, 14.5) over a trick and 1.5 leading; a pair or triple the rank of its first card that is not the Phoenix; a four-of-a-kind bomb the rank of its first card; a full house `FullHouseRank` (see `FullHouseRankRule`); straights 100 times length plus top rank, plus one with the Phoenix on top |
| ComboFacts.SingleRule | game_logic/combo.py:22-25 | one card is a dog exactly when its lower-cased name is "dog", otherwise a single |
| ComboFacts.CountsAllOne | game_logic/combo.py:29-49 | `unique_counts == [len(cards)]` exactly when all cards share one name |
| ComboFacts.PairRule | game_logic/combo.py:28-32 | two cards are a pair exactly when they share a name or one is the Phoenix |
| ComboFacts.TripleRule | game_logic/combo.py:35-39 | three cards are a triple exactly when they share a name, or the Phoenix is there and there are two names |
| ComboFacts.FullHouseRule | game_logic/combo.py:42-46 | a full house is five cards whose name counts are {2,3}, or {1,2,2} or {1,1,3} with the Phoenix |
| ComboFacts.FourKindRule | game_logic/combo.py:48-50 | a four-of-a-kind bomb is exactly four cards of one name |
| ComboFacts.PhoenixSingleRank | game_logic/combo.py:89-97 | a Phoenix single ranks 1.5 when it leads, and exactly min(top + 0.5, 14.5) over a trick whose top ranks `top` |
| ComboFacts.FullHouseRankRule | game_logic/combo.py:106-116 | the full-house rank is the rank of the first card whose rank is held three times; with none, it is the highest rank held twice when the Phoenix is there (0 if none is) and 0 without the Phoenix |
| ComboFacts.BombStraightAllSuited | game_logic/combo.py:53-58 | a one-suit straight of deck cards has only suited cards, so neither the Phoenix nor the Mah Jong |
| ComboFacts.StraightsOutrankAll | game_logic/combo.py:88-121 | for deck cards every straight ranks at least 499 and every other combo at most 15 |
| ComboFacts.FullHouseRankBound | game_logic/combo.py:106-116 | the full-house rank of deck cards is at most 15 |
| ComboExamples.PhoenixFillsInnerGap | game_logic/combo.py:76-84 | Phoenix, 3, 4, 5, 7 is a straight with the Phoenix inside, ranked 507 |
| ComboExamples.PhoenixOnTop | game_logic/combo.py:79-84 | Phoenix, 5, 6, 7, 8 is a straight with the Phoenix on top, ranked 509 |
| Players.SortByRank | game_logic/player.py:16 | sorting by rank keeps the cards (same multiset) and leaves them in rank order |
| Players.SortByRankStable | game_logic/player.py:16 | `list.sort()` is stable: the cards of each rank keep their relative order |
| Players.ResortSnoc | game_logic/player.py:14-16 | receiving a card into a sorted hand gives the same hand as sorting everything received so far |
| Players.InsertPosition | game_logic/player.py:14-16 | in a hand in rank order the new card goes in after every card of lower or equal rank and before every card of higher rank, the rest keeping its order |
| Players.AppendThenSort | game_logic/player.py:14-16 | appending to a sorted hand and sorting gives `InsertByRank`, so the card lands where `InsertPosition` says |
| Players.RemoveFirst | game_logic/player.py:21 | `list.remove` takes out one copy of the card |
| Players.RemoveFirstAt | game_logic/player.py:21 | cards before the removed one keep their place; later ones move down by one |
| Players.RemoveEach | game_logic/player.py:18-23 | one-by-one removal, stopping at the first card not in the hand |
| Players.RemoveEachSucceeds | game_logic/player.py:18-23 | removal succeeds exactly when the hand holds all the cards with multiplicity, and then the hand loses exactly them |
| Players.RemoveEachShrinks | game_logic/player.py:18-23 | removal, successful or not, only takes cards out |
| Players.RemoveEachKeepsOrder | game_logic/player.py:18-23 | the hand stays in rank order whatever is removed |
| Players.Player.constructor | game_logic/player.py:4-12 | name, sid and team as given; empty hand and pile; no flags set |
| Players.Player.ReceiveCard | game_logic/player.py:14-16 | the hand is the old hand plus the card, sorted; it grows by one and stays in rank order |
| Players.Player.RemoveCards | game_logic/player.py:18-23 | the hand and the missing card are those of one-by-one removal; a missing card leaves the earlier removals in place |
| Players.Player.PassableCards | game_logic/player.py:28-31 | the first three cards, or the whole hand if shorter; in a sorted hand no card left behind ranks below a passed card |
| Players.Player.AddTrick | game_logic/player.py:33-37 | the cards go to the end of the pile and the pile's points rise by their points |
| Players.Player.Points | game_logic/player.py:36-37 | the points of the won cards |
| Players.Player.ResetForNewRound | game_logic/player.py:39-44 | empty hand and pile, both Tichu flags and `finished` cleared |
| Scoring.RoundPointsOf | game_logic/game.py:144-156 | the settlement loop over the seats, failing at the first unfinished seat when nobody has gone out |
| Scoring.RoundPointsFail | game_logic/game.py:149-150 | settlement fails exactly when some seat is still in and nobody has gone out |
| Scoring.RoundPointsShares | game_logic/game.py:144-156 | a team gets the tricks of its finished seats, the tricks of the other team's unfinished seats and, if its player went out first, every point left in hands |
| Scoring.RoundPointsConserved | game_logic/game.py:144-156 | the two teams' round points add up to all trick points plus the points left in the unfinished hands |
| Scoring.RoundPointsFailureSticks | game_logic/game.py:146-150 | a failure on the first seats is a failure of the whole settlement |
| Game.StartingSeat | game_logic/game.py:64-70 | the last seat holding a rank-1 card, or the old turn if no seat does |
| Game.ShuffledDeck | game_logic/game.py:38-40 | any shuffle of the deck has 56 cards, among them one of rank 1 |
| Game.PassSeat | game_logic/game.py:92-100 | one seat's pass: a missing entry, a wrong card count or a card not in the hand is an error |
| Game.PassUpTo | game_logic/game.py:92-100 | the seats' passes one after the other, stopping at the first error; four hands come out |
| Game.PassKeepsSizes | game_logic/game.py:92-100 | after a complete pass every hand has its old size |
| Game.PassConservesCards | game_logic/game.py:92-100 | a complete pass only moves cards between hands; a failed one can only lose cards |
| Game.PassNeedsEntries | game_logic/game.py:93-95 | a complete pass found every seat's name with exactly three cards |
| Game.PassStops | game_logic/game.py:92-96 | after the first error later seats change nothing |
| Game.PassKeepsOrder | game_logic/game.py:92-100 | hands in rank order stay in rank order through a pass |
| Game.Give | game_logic/game.py:98-100 | the cards go one each to the seats one, two and three places on; the giver's hand is unchanged |
| Game.TichuGame.constructor | game_logic/game.py:10-26 | four distinct players, teams by seat, all other fields at their start values; hands and piles untouched |
| Game.TichuGame.AssignTeams | game_logic/game.py:28-31 | even seats get team A and odd seats team B; nothing else of a player changes |
| Game.TichuGame.StartNewRound | game_logic/game.py:33-59 | counters and lists reset; every player has 14 cards, an empty pile and no flags; the hands hold exactly the shuffled deck, and seat i holds exactly `Dealt(shuffled, 14, i)` (round r gave it the card 4r + i places from the end), in rank order; the turn is on the starting seat, which holds the Mah Jong |
| Game.TichuGame.DealNewHands | game_logic/game.py:41-59 | players reset and dealt the whole shuffled deck, seat by seat exactly `Dealt(shuffled, 14, i)` sorted; the turn is on the starting seat |
| Game.TichuGame.DealFresh | game_logic/game.py:41-54 | after the reset every seat holds exactly its fourteen dealt cards in rank order, nothing else of its round state, and the deck is empty |
| Game.TichuGame.DealAll | game_logic/game.py:44-54 | eight rounds and then six empty the 56-card deck; each seat's hand is its old hand plus its fourteen dealt cards, sorted, so every card is held |
| Game.TichuGame.DealRounds | game_logic/game.py:45-47 | n rounds take the last 4n cards off the deck; seat i's hand becomes its base hand plus `Dealt(deck, n, i)`, sorted |
| Game.TichuGame.DealRound | game_logic/game.py:46-47 | one round pops the last four cards; seat i receives the card i places from the end and re-sorts its hand, in seat order |
| Game.TichuGame.DealTo | game_logic/game.py:47 | the deck loses its last card, which seat j appends and sorts in; every other hand is unchanged |
| Game.DealtSplit | game_logic/game.py:45-54 | eight rounds and then six from what is left deal seat j the cards of fourteen rounds, in order |
| Game.DealtPartition | game_logic/game.py:45-54 | after n rounds the four seats' cards and the cards left are exactly the deck |
| Game.DealtConserves | game_logic/game.py:45-54 | dealing n rounds onto hands moves cards from the deck into the hands and loses or duplicates none |
| Game.DealtHandsStep | game_logic/game.py:46-47 | the hands after r rounds and one more round are the hands after r + 1 rounds |
| Game.DealtFromNothing | game_logic/player.py:14-16 | fourteen rounds dealt to an empty hand leave exactly the fourteen dealt cards, sorted |
| Game.TichuGame.SetStartingPlayerIndex | game_logic/game.py:64-70 | the turn goes to `StartingSeat`; when any hand has a rank-1 card, the chosen seat has one |
| Game.TichuGame.PassCards | game_logic/game.py:72-100 | hands and error are those of `PassUpTo` over the four seats |
| Game.TichuGame.CurrentPlayer | game_logic/game.py:102-103 | the player on turn is seated and on the team of that seat |
| Game.TichuGame.AdvanceTurn | game_logic/game.py:105-112 | with three or more out nothing moves; otherwise the turn reaches the next unfinished seat, passing only finished seats |
| Game.TichuGame.ValidPlay | game_logic/game.py:120-137 | a valid play is a valid combo that meets the wish; a valid combo that meets the wish with no trick running is always valid |
| Game.TichuGame.StraightBeatsOtherKinds | game_logic/game.py:130-135 | when the top of the trick is a combo of deck cards that is not a straight, any straight of deck cards that meets the wish is valid |
| Game.TichuGame.NothingButStraightsBeatStraights | game_logic/game.py:130-135 | when the top of the trick is a straight of deck cards, no other kind of deck cards is valid, not even a bomb |
| Game.TichuGame.CalculateRoundPoints | game_logic/game.py:144-159 | the result is the settlement of the seats; the scores rise by it, or stay as they were when it fails |
| Game.TichuGame.GetComboPlayer | game_logic/game.py:139-142 | the player of the latest trick entry with this combo, or none when no entry has it |
| App.ParseFilename | app.py:166-171 | two or more underscores fail; otherwise the name and the optional suit hold no underscore and give back the stripped name |
| App.CardsFor | app.py:163-179 | a successful conversion has one card per file name |
| App.FirstMatch | app.py:173-178 | none exactly when no hand card has this name and suit; otherwise the first such card |
| App.FindCard | app.py:173-178 | the search loop returns `FirstMatch` |
| App.MatchFilename | app.py:165-178 | a name matches exactly when it parses and a hand card has its name and suit; the errors say which step failed |
| App.CardsForOk | app.py:163-179 | all names go through exactly when each one matches, and position i of the result is the match of name i |
| App.CardsForErr | app.py:163-179 | an error is the error of a name all of whose predecessors match |
| App.FilenamesToCards | app.py:163-179 | the loop returns `CardsFor` |
| App.FilenameRoundTrip | app.py:86-90 | parsing the file name of a card without underscores or dots gives back its name and suit |
| App.FilenamesRoundTrip | app.py:163-179 | file names of hand cards with distinct name and suit give back the same cards |
| App.DeckFilenamesRoundTrip | app.py:163-179 | for any hand of deck cards, the file names of its cards give back the same cards |
| App.TrickCards | app.py:258 | the flattened trick has every card of every play and their points |
| App.NamesNotOn | app.py:210 | exactly the names of the players on another team |
| App.RecipientsAreOpponents | app.py:210 | with teams by seat, the Dragon candidates are the two seats of the other parity, in seat order |
| App.HandlePass | app.py:182-227 | the rejection reasons in the source's order, with no change on rejection; otherwise the pass is counted and the turn moves on below four passes, the trick waits for a Dragon choice, or the winner takes the trick as corrected under Findings (its cards one by one) and leads |
| App.PassOnTrick | app.py:198-227 | below four passes the count rises and the turn moves to the next unfinished seat; at four, a Dragon top waits for a choice and any other top is taken by its player as in `TakeTrick` |
| App.TakeTrick | app.py:216-220 | as corrected under Findings: the winner's pile gains the trick's cards one by one, in play order (the code as written adds one list per play, `WinAsWritten`); trick and pass count cleared; the turn is on the winner |
| App.AwaitDragonChoice | app.py:209-214 | the candidates are the other team's names and the winner is recorded |
| App.HandleDragonRecipientSelected | app.py:242-271 | no winner, no candidates or a choice not among them leave the game as it was; otherwise the chosen player gets the trick cards, the Dragon fields and the trick are cleared, and the winner leads |
| App.GiveTrickTo | app.py:255-260 | every seat named as the recipient, and only those, gains the trick cards |
| App.WinAsWritten | app.py:216 | the pile keeps its old entries and gains one list entry per play, holding that play's cards |
| App.AsWrittenHoldsTrickCards | app.py:216 | opened up, the pile as written holds the same cards in the same order as the corrected pile of `TakeTrick` |
| App.WinAsWrittenUnscorable | app.py:216 | appending one list per play leaves a pile whose points cannot be summed |
| App.FiveTrickAsWritten | app.py:216 | a trick of one Five makes the pile unscorable although it is worth 5 |
| App.WinAsIntendedScores | app.py:216 | with flattened cards the pile's points are the old points plus the trick's |

## Left out

- Flask and Socket.IO: `handle_join`, `handle_disconnect`, `start_game`, `send_hands_to_players`, `handle_wish`, `handle_ready`, every `emit`, and the module globals. The game is a parameter, and the player found for a session id is an `Option<Player>` parameter.
- `handle_play_card` (`app.py:93-160`) is not modelled. It mixes its state changes with emits and a catch-all exception handler. Its parts that are modelled are:
  - `filenames_to_cards`;
  - `valid_play`;
  - `remove_cards`;
  - `advance_turn`;
  - `calculate_round_points`.
- `random.shuffle`: the shuffled deck is an input to `StartNewRound`. `ShuffledDeck` states what a permutation of the deck gives.
- `print`, the `__repr__` methods and the `__main__` demos.
- `static/script.js`: the browser side has no game rules.
- Tichu and Grand Tichu bonuses and double victories: the source has none of them.
- Setting the wish: `handle_play_card` raises `waiting_for_wish` when a Mah Jong is played (`app.py:118-121`), and `handle_wish` stores the wished name (`app.py:230-239`). Both are left out with the Flask handlers. In the model `wish` is a field that only `ValidPlay` reads. The source never clears a wish once it is met, and the model does not either.
- `TichuGame.pile` and `round_number` are carried as fields but no modelled operation uses them.
- Card identity: Python compares `TichuCard` objects by identity. The model compares cards as values. The 56 deck cards are pairwise different values (`DeckIdsDistinct`), so this only matters for lists with the same card object twice.
- Game.TichuGame.GetComboPlayer: `Combo` has no `__eq__`, so the source finds the trick entry holding that very combo object. The model compares combos as values, so two equal combos in one trick are not told apart.
- Game.TichuGame.constructor: requires four pairwise-distinct players whose hands are in rank order. The source only asserts that there are four players (`game_logic/game.py:11`).
- App.TakeTrick: models the trick win as corrected under Findings (each card appended on its own, as the Dragon branch does at `app.py:258`), not as written at `app.py:216`. The written pile is `App.WinAsWritten`, and `App.AsWrittenHoldsTrickCards` relates the two.
- App.HandlePass: when a trick closes without the Dragon, the winner's pile is the corrected one of `App.TakeTrick`.
- App.PassOnTrick: the same correction as `App.TakeTrick`.
- Text.Lower: `str.lower()` is modelled for ASCII letters only. All card names are ASCII.
- Combos.IsStraight: the `ValueError` branch around reading ranks cannot happen for cards with integer ranks, so it is not modelled.
- App.HandleDragonRecipientSelected: when `dragon_possible_recipients` is `None` while a winner is set, the source raises `TypeError`. The model returns `NoCandidates` and changes nothing.
- Game.TichuGame.ValidPlay: the rank comparison is stated only through `StraightBeatsOtherKinds`, `NothingButStraightsBeatStraights` and the function body. There is no separate ordering lemma for singles, pairs and full houses.
- Game.TichuGame.StartNewRound: the shuffled deck must have 56 cards. This is what `create_tichu_deck` followed by `random.shuffle` produces.
- Game.TichuGame.IsRoundOver (`game_logic/game.py:114-115`) and Players.Player.HasCard (`game_logic/player.py:25-26`) are plain reads. They have no contract of their own.

## Findings

| source | as written | input that shows it | evidently intended | confidence | as-written member | corrected member |
|---|---|---|---|---|---|---|
| app.py:216 | a trick won without the Dragon adds one list per play to the winner's `tricks_won`, not the cards | lead a single 5, then four passes: `tricks_won` becomes `[[5]]`, and `calculate_points` (game_logic/player.py:36-37) and `calculate_round_points` (game_logic/game.py:147) fail reading `points` of a list | add the flattened cards, as the Dragon branch does (app.py:258) | high, not executed | App.FiveTrickAsWritten | App.WinAsIntendedScores |
