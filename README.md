# Rikiki scoring engine in Dafny

This project models the game-progression and scoring rules of Rikiki, a trick-prediction card game. Each round, every player guesses how many tricks ("hits") they will take. An exact guess earns points and a miss costs points. The model covers what the Flask handlers of `app.py` do to a game once the web and database layers are stripped away:

- **Schedule** (`schedule.dfy`): the number of rounds, `2 * floor(cap / n) - 1`. `cap` is 51 for a single deck and 103 for a double deck. The cards per round follow an up-then-down pyramid.
- **Scoring** (`scoring.dfy`): `10 + 2 * hits` for an exact guess, `-2 * |guess - hits|` otherwise. Both the normal path and the edit path use this one rule.
- **Dealing** (`dealing.dfy`): the dealer moves on one seat per round, modulo the player count. Play order starts with the seat after the dealer and ends with the dealer.
- **Rounds** (`rounds.dfy`): the rows stored per round and player (guess, hits, points), and the functions that specify how submitting guesses, submitting hits and the administrative edit rewrite them.
- **Engine** (`game.dfy`): a `Game` class whose fields the handlers update: current round, dealer, active and ended-early flags, whether the start and end times are set, the rounds, and the per-player totals. Its methods mirror `new_game`, `submit_guesses`, `submit_results`, `force_end_game` and `edit_game`. The loops inside those handlers are separate methods, each proved against a specification function.
- **Summary** (`summary.dfy`): the read side. It builds each player's cumulative-points chart line and their guess counters.

Players are identified by their seat, `0 .. n-1`, in the game's fixed seating order. In a round, `results[s]` is seat `s`'s row if it has one. A handler that fails changes nothing, because the request that fails never commits. This covers an unknown round, a refused guess set, and a row left without points. Each failure is an `Outcome.Fail` carrying an `Error`.

Two invariants are kept apart:

- `Game.Valid()` is preserved by every handler. It says:
  - the current round is never past the schedule;
  - the rounds follow the schedule;
  - the dealer is the first dealer rotated once per round;
  - only completed rounds carry points.
- `Game.TotalsConsistent()` says that every stored total equals the sum of that player's points in the rows. `edit_game` always re-establishes it. `submit_guesses` and `submit_results` keep it when they target a round that is not yet completed. The source does not check this, so re-submitting results for a completed round adds its points a second time (`Engine.ResubmittedResultsCountTwice`).

The model follows the code, which checks less than one might expect:

- No handler checks guess or hit ranges.
- Nothing checks that a round's hits add up to its cards.
- `submit_results` does not check that the round is the current one or that the game is active.
- `force_end_game` does not check that the game is active.
- More players than cards is accepted, and the game then has `-1` rounds. `Valid()` allows `currentRound == 1` in that case.
- `submit_guesses` deletes the round's rows before the forced-conflict check. The redirect on refusal does not commit, so a refused set leaves the old rows in place.

## Model

| member | source | states |
|---|---|---|
| `Schedule.Capacity` | app.py:163-166 | a deck holds 51 usable cards, or 103 for a double deck |
| `Schedule.MaxRounds` | app.py:162-167 | the round count is odd and at least -1; it is at least 1 exactly when there are no more players than cards |
| `Schedule.Peak` | app.py:387-392 | the peak recovered from a positive round count (`max_rounds // 2 + 1`) is a round within the schedule, and an odd round count is `2 * peak - 1` |
| `Schedule.PeakIsLargestHand` | app.py:164-167 | the peak that the next-round code recomputes from the round count (`max_rounds // 2 + 1`) is exactly `floor(cap / n)`, and a peak hand for every player fits in the deck |
| `Schedule.CardsForRound` | app.py:387-393 | within an odd schedule every round deals between 1 card and the peak |
| `Schedule.ScheduleEnds` | app.py:387-393 | the schedule deals 1 card in round 1, the peak in the peak round and 1 card in the last round, and it has `2 * peak - 1` rounds |
| `Schedule.ScheduleSymmetric` | app.py:387-393 | round `k` and round `maxRounds + 1 - k` deal the same number of cards |
| `Schedule.SchedulePyramid` | app.py:387-393 | consecutive rounds differ by one card: one more before the peak, one fewer from the peak on |
| `Schedule.PeakIsUnique` | app.py:387-393 | only the peak round deals the peak number of cards |
| `Schedule.ThreePlayersSingleDeck` | app.py:162-167 | three players with a single deck play 33 rounds with a 17-card peak |
| `Scoring.Score` | app.py:359-364 | an exact guess with non-negative hits scores at least 10; a miss scores at most -2 and an even number; for non-negative hits the score is positive exactly when the guess is exact |
| `Scoring.ExactGuessIsBest` | app.py:359-364 | with non-negative hits, the exact guess scores more than any other guess |
| `Scoring.PenaltyGrowsWithError` | app.py:362-364 | among misses, a guess further from the hits never scores more |
| `Scoring.MissPenalty` | app.py:362-364 | a miss costs two points per trick of error, in either direction |
| `Scoring.ScoreExamples` | app.py:359-364 | 3 of 3 scores 16, 2 against 5 scores -6, 0 of 0 scores 10, 0 against 1 scores -2 |
| `Dealing.NextDealer` | app.py:384 | the next dealer is always a seat |
| `Dealing.DealerForRound` | app.py:379-384 | round 1 is dealt by the first dealer, and every later round by a seat: the dealer rotates once each time a round is completed |
| `Dealing.NextDealerStep` | app.py:384 | the dealer moves exactly one seat on, wrapping from the last seat to seat 0 |
| `Dealing.DealerClosedForm` | app.py:379-384 | the dealer of round `k` is `(first + k - 1) mod n` |
| `Dealing.DealerInRange` | app.py:170-172 | starting from a first dealer drawn in `[0, n)`, every round's dealer is in `[0, n)` |
| `Dealing.DealerVisitsEverySeat` | app.py:379-384 | every seat deals within any `n` consecutive rounds |
| `Dealing.DealersDistinct` | app.py:379-384 | no seat deals twice within `n` consecutive rounds |
| `Dealing.PlayOrder` | app.py:211-219 | the play order has one entry per player and each entry is a seat |
| `Dealing.PlayOrderEnds` | app.py:216-219 | the play order starts with the seat after the dealer and ends with the dealer |
| `Dealing.PlayOrderAt` | app.py:218 | position `i` of the play order is `dealer + 1 + i`, less `n` once it passes the last seat |
| `Dealing.PlayOrderIsPermutation` | app.py:216-219 | every seat appears in the play order, and no seat appears twice |
| `Rounds.GuessEntries` | app.py:309-316 | submitted guesses leave one unscored row per seat that entered a guess, holding that guess, and no row for the other seats |
| `Rounds.GuessTotal` | app.py:293-301 | the sum of the entered guesses is 0 when no guess was entered, and never negative when no guess is |
| `Rounds.ScoreEntry` | app.py:355-364 | a row that receives a hit count keeps its guess and gets the points of the scoring rule; a seat without a row still has none |
| `Rounds.ScoreResults` | app.py:344-364 | every seat's row after the hits are applied is that row scored by its own hit count, one slot per seat |
| `Rounds.ScoreRound` | app.py:344-367 | the scored round keeps its number and cards, its rows are scored and it is completed |
| `Rounds.AddGains` | app.py:369-376 | every total grows by exactly that seat's points in the round, and no seat is added or lost |
| `Rounds.EditScoresLikeResults` | app.py:557-564 | the edit form gives a row the same hits and points as submitting those hits for the same guess (app.py:355-364) does, whatever the row held before |
| `Rounds.EditResults` | app.py:533-564 | an edited cell holds the edited row, and every cell outside the edit keeps its row |
| `Rounds.EditRound` | app.py:533-582 | an edited round keeps its number and cards, its rows are upserted, and it is completed once it has a row |
| `Rounds.ApplyEdits` | app.py:533-582 | the edit rewrites every round in its place, and the number of rounds stays the same |
| `Rounds.RecomputedTotals` | app.py:566-576 | one recomputed total per seat, each equal to that seat's sum of known points |
| `Rounds.Blank` | app.py:182-186 | a new round has one slot per seat and no rows (also at app.py:396-400) |
| `Rounds.Gain` | app.py:257-258 | a round without any points adds nothing to any seat |
| `Rounds.TotalOf` | app.py:566-576 | a seat's total over rounds that carry no points is 0 |
| `Rounds.TotalOfUpdate` | app.py:369-376 | replacing one round changes a player's total by the difference between that round's old and new points |
| `Rounds.EditsCompleteRounds` | app.py:578-582 | after an edit every round with a row is completed, so only completed rounds carry points |
| `Rounds.EditIdempotent` | app.py:533-582 | applying the same edits a second time changes no round |
| `Rounds.TotalOfIgnoresCompletion` | app.py:566-576 | the recomputed totals depend on the rows only, not on which rounds are marked completed |
| `Summary.Series` | app.py:228-259 | a chart line has one point more than there are completed rounds, and it starts at 0 |
| `Summary.Completed` | app.py:228 | the chart's rounds are no more than the game's rounds (the same filter at app.py:436) |
| `Summary.CompletedFilters` | app.py:228 | every round the chart keeps is completed and belongs to the game, and every completed round is kept |
| `Summary.SeriesEndsAtTotal` | app.py:250-259 | the last point of the line is the sum of the player's points over the completed rounds |
| `Summary.SeriesSteps` | app.py:455-467 | each point is the previous one plus that completed round's points, where a missing row adds nothing |
| `Summary.SeriesPrefixStep` | app.py:252-259 | one more round extends the line by one point exactly when that round is completed, and the new point is the previous one plus that round's points |
| `Summary.CompletedTotal` | app.py:366-376 | when only completed rounds carry points, their sum for a player is the player's sum over all rounds |
| `Summary.RowPoints` | app.py:253-258 | one step of the running sum fails exactly when the player's row in the completed round has no points; otherwise it adds that row's points, or nothing when there is no row |
| `Summary.CumulativeSeries` | app.py:248-259 | the running-sum loop fails exactly when some completed round holds the player's row without points, and otherwise returns the chart line |
| `Summary.GuessCounts` | app.py:486-497 | the counter loop returns the number of completed rounds with a row for the player, and the number of those where hits equal the guess; correct ≤ total ≤ the number of completed rounds |
| `Summary.CountsBounded` | app.py:487-497 | there are no more correct guesses than guesses, and no more guesses than completed rounds |
| `Summary.PlayedCount` | app.py:487-495 | a seat has guessed in no more rounds than there are |
| `Summary.CorrectCount` | app.py:487-497 | a seat has guessed right in no more rounds than there are |
| `Summary.EditCanLeaveUnscoredRow` | app.py:578-582 | an edit marks a round completed even when its only row is a bare guess, and reading that round's points then fails |
| `Engine.SumGuesses` | app.py:293-301 | the accumulating loop returns the sum of the entered guesses |
| `Engine.ScoreRows` | app.py:344-364 | every row that gets a hit count records the hits and the points for its guess; every other row is unchanged |
| `Engine.AddRoundPoints` | app.py:369-376 | adding the round's points fails exactly when some row has no points; otherwise each player's total grows by the points of their row |
| `Engine.ScoreAndTally` | app.py:344-376 | the round comes back scored and completed; the step fails exactly when a row is left without points, and otherwise every total grows by that player's points |
| `Engine.UpsertRows` | app.py:533-564 | every edited cell's row is created or overwritten with the new guess, hits and recomputed points; every other row is unchanged |
| `Engine.RecomputeTotals` | app.py:566-576 | the nested summing loop returns, for each player, the sum of the known points over all rounds |
| `Engine.MarkRoundsWithRows` | app.py:578-582 | a round becomes completed when it has at least one row; nothing else changes |
| `Engine.TotalsAfterScoring` | app.py:366-376 | scoring a round that carried no points, and adding its points to totals that matched the rows, leaves totals that match the new rows |
| `Engine.TotalsAfterAppend` | app.py:395-401 | adding an empty next round leaves matching totals matching |
| `Engine.ReplaceCompletedRound` | app.py:366-367 | completing a round keeps its number, cards and slots, so the game's rows still follow the schedule |
| `Engine.AppendScheduledRound` | app.py:386-401 | the new round, numbered one higher, with its scheduled cards and no rows, keeps the rows on schedule |
| `Engine.ProgressAfterGuesses` | app.py:309-316 | replacing one round's rows by unscored guesses keeps the round count, the dealer and the schedule invariant |
| `Engine.ProgressAfterResults` | app.py:366-401 | completing a scored round keeps the invariant; so, below the round count, does moving to the next round with the next dealer and a new, empty round with the scheduled cards |
| `Engine.Game.constructor` | app.py:169-188 | a new game has the computed round count, the drawn first dealer, round 1 with one card and no rows, zero totals, and is active with no start or end recorded |
| `Engine.NewGame` | app.py:142-191 | no players is refused as "no players selected" and one player as "too few"; otherwise the game is created as the constructor says |
| `Engine.Game.SubmitGuesses` | app.py:281-324 | an unknown round is not found. With forced conflict on, a guess sum equal to the round's cards is refused and nothing changes. Otherwise the round's rows become exactly the entered guesses, unscored, and the start is recorded the first time round 1 gets guesses. Nothing else changes, and totals that matched the rows still match when the round was not completed |
| `Engine.Game.SubmitResults` | app.py:336-410 | An unknown round is not found, and a row left without points fails with nothing stored. Otherwise the round is scored and completed, and each total grows by that player's points. Then, if the current round is below the round count, the round number and the dealer each advance by one and a round with the scheduled cards is added; otherwise the game becomes inactive with its end recorded. The invariant holds, so the current round never passes the round count, and matching totals stay matching when the round was not completed |
| `Engine.Game.ForceEndGame` | app.py:326-334 | the game becomes inactive, ended early and ended; rounds, totals, round number and dealer are unchanged |
| `Engine.Game.EditGame` | app.py:525-586 | the rounds become the edited rounds and every total becomes the recomputed sum of its player's points, whatever it was before; every round with a row is completed; nothing else changes |
| `Engine.EditTwice` | app.py:533-582 | submitting the same edit form twice leaves the same rounds and totals as submitting it once |
| `Engine.OpeningRound` | app.py:293-376 | in a one-card round for three players, guesses 0, 0, 1 add up to the cards and 0, 0, 0 do not; hits 0, 0, 1 then score 10, 10 and -2 |
| `Engine.ThreePlayerOpening` | app.py:281-410 | in a new three-player single-deck game with forced conflict, guesses 0, 0, 1 are refused, and after guesses 0, 0, 0 and hits 0, 0, 1 the totals are 10, 10 and -2, round 2 deals 2 cards and seat 1 deals |
| `Engine.ChartEndsAtTotal` | app.py:248-259 | in a game whose totals match its rows, every player's chart line ends at that player's stored total |
| `Engine.RoundsFollowPyramid` | app.py:379-400 | when there are no more players than cards, the current round is within the round count and every created round deals its scheduled cards, between 1 and `floor(cap / n)` |
| `Engine.ResubmittedResultsCountTwice` | app.py:366-376 | re-submitting the hits of a completed, already scored round adds its points again, and the totals then no longer match the rows |

## Left out

- Routing, templates, flash messages and redirects are presentation only and are not modelled. So is the parsing of the form keys `guess_<id>`, `hits_<id>` and `guess_<round>_<player>`. The model takes the parsed values directly: one optional guess or hit count per seat, and a map from (round, seat) to an edit.
- A form key naming a player who is not in the game is not modelled. Neither is a round id of another game, nor a non-numeric value that makes `int()` raise. These come from the form, which lists only the game's own players and rounds.
- The database is not modelled: queries, commits and the cascading delete of `delete_game` are persistence. Rows are values inside `Game.rounds`. Within one request, a failure means no commit, so a failure leaves the game unchanged.
- `random.randint` for the first dealer is the parameter `initialDealer`. `datetime.now` is not modelled; the start and end times are the flags `started` and `ended`.
- The player roster (create, rename, delete, nickname uniqueness) is a database lookup and is not part of the engine.
- The standings order in `game_summary` is not modelled, because the database sorts by total points. The `ended_at` back-fill at the top of `game_summary` and the script `update_timestamps.py` are not modelled either; both only fill in missing times.
- `avg_points_per_round` and `accuracy` use floating-point division. Only the integer counters they are computed from are modelled.
- The chart's labels and colour strings, and the minimum and maximum points used for colour coding on the game page, are presentation only.
- The game page's error when no current round is found is not modelled. In a valid game the current round always exists.
- `round_direction` is never read and is not modelled.
- `Dealing.PlayOrder` returns seats, not player records. The page lists `game_players[seat]` for each seat in this order.
- `Schedule.MaxRounds` models `math.floor(cap / n)` by integer division. For a positive `n` the two are equal.
- `Engine.Game.SubmitResults`: in the last round, the handler returns at app.py:407 before the commit at app.py:409. By the same no-commit rule as above, the last round's hits, points, completion flag, the new totals and `is_active = False` would then never be stored. The model records the logical transition instead: the round is scored, the totals grow and the game stops, as the code's assignments state.
- Seats stand for distinct players. `new_game` accepts a repeated player id in `player_order` (app.py:151-179). Points are then added to the first matching `GamePlayer` only (app.py:371-376). The model does not capture this.
