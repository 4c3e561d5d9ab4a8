/**
 * The game state machine: a game is created with its schedule and first
 * dealer, then guesses and hits are submitted round by round until the
 * schedule runs out or the game is ended early; an administrative edit may
 * rewrite any row and recomputes every total.
 *
 * Each handler either succeeds or fails; a failure leaves the game exactly
 * as it was, because the request that fails never commits.
 */
module Engine {
  import opened Wrappers
  import opened Schedule
  import opened Scoring
  import opened Dealing
  import opened Rounds
  import opened Summary

  datatype Error =
    | NoPlayersSelected
    | TooFewPlayers
    | NotFound
    | ForcedConflict(total: int, cards: int)
    | UnscoredResult

  /**
   * Round `k` (stored at position `k - 1`) has number `k`, one slot per
   * seat, and its cards from the schedule; round 1 is created with one card.
   */
  ghost predicate FollowsSchedule(rs: seq<Round>, maxRounds: int, players: nat)
  {
    forall i :: 0 <= i < |rs| ==>
      && rs[i].number == i + 1
      && |rs[i].results| == players
      && rs[i].cards == (if i == 0 then 1 else CardsForRound(maxRounds, i + 1))
  }

  /** Every total is the sum of that seat's points in the rows `rs`. */
  ghost predicate TotalsMatch(totals: seq<int>, rs: seq<Round>, players: nat)
  {
    |totals| == players && forall s :: 0 <= s < players ==> totals[s] == TotalOf(rs, s)
  }

  /** Replacing a round by one with the same number, cards and width, completed, keeps the invariants of the rows. */
  lemma ReplaceCompletedRound(rs: seq<Round>, r: int, x: Round, maxRounds: int, players: nat)
    requires FollowsSchedule(rs, maxRounds, players) && ScoredOnlyCompleted(rs) && 0 <= r < |rs|
    requires x.number == rs[r].number && x.cards == rs[r].cards && |x.results| == players && x.completed
    ensures FollowsSchedule(rs[r := x], maxRounds, players) && ScoredOnlyCompleted(rs[r := x])
  {
  }

  /** Appending the next scheduled round, still empty, keeps the invariants of the rows. */
  lemma AppendScheduledRound(rs: seq<Round>, maxRounds: int, players: nat)
    requires FollowsSchedule(rs, maxRounds, players) && ScoredOnlyCompleted(rs) && |rs| >= 1
    ensures var next := Round(|rs| + 1, CardsForRound(maxRounds, |rs| + 1), false, Blank(players));
      FollowsSchedule(rs + [next], maxRounds, players) && ScoredOnlyCompleted(rs + [next])
  {
    var next := Round(|rs| + 1, CardsForRound(maxRounds, |rs| + 1), false, Blank(players));
    assert NoScores(next.results);
  }

  /**
   * Scoring a round that carried no points and adding its points to totals
   * that matched the rows gives totals that match the new rows.
   */
  lemma TotalsAfterScoring(totals: seq<int>, rs: seq<Round>, r: int, x: Round, players: nat)
    requires TotalsMatch(totals, rs, players) && 0 <= r < |rs| && NoScores(rs[r].results)
    ensures TotalsMatch(AddGains(totals, x), rs[r := x], players)
  {
    forall u | 0 <= u < players ensures AddGains(totals, x)[u] == TotalOf(rs[r := x], u) {
      TotalOfUpdate(rs, r, x, u);
    }
  }

  /** Adding a round without points leaves matching totals matching. */
  lemma TotalsAfterAppend(totals: seq<int>, rs: seq<Round>, x: Round, players: nat)
    requires TotalsMatch(totals, rs, players) && NoScores(x.results)
    ensures TotalsMatch(totals, rs + [x], players)
  {
    forall u | 0 <= u < players ensures totals[u] == TotalOf(rs + [x], u) {
      TotalOfAppend(rs, x, u);
    }
  }

  /**
   * The progress invariant of a game, on the values of its fields: the
   * current round is within the schedule (or is the first round of a game
   * with no full round), its dealer is the first dealer rotated once per
   * round, one round exists per round played so far, the rounds follow the
   * schedule, and only completed rounds carry points.
   */
  ghost predicate Progress(players: nat, maxRounds: int, firstDealer: int, currentRound: int, dealer: int, rounds: seq<Round>)
  {
    && 2 <= players
    && 0 <= firstDealer < players
    && 1 <= currentRound
    && (currentRound <= maxRounds || currentRound == 1)
    && 0 <= dealer < players
    && dealer == DealerForRound(firstDealer, currentRound, players)
    && |rounds| == currentRound
    && FollowsSchedule(rounds, maxRounds, players)
    && ScoredOnlyCompleted(rounds)
  }

  /** New guesses for one round, which carry no points, keep the progress invariant. */
  lemma ProgressAfterGuesses(players: nat, maxRounds: int, firstDealer: int, currentRound: int, dealer: int, rounds: seq<Round>, r: int, guesses: seq<Option<int>>)
    requires Progress(players, maxRounds, firstDealer, currentRound, dealer, rounds)
    requires 0 <= r < |rounds| && |guesses| == players
    ensures Progress(players, maxRounds, firstDealer, currentRound, dealer, rounds[r := rounds[r].(results := GuessEntries(guesses))])
  {
    var rs := rounds[r := rounds[r].(results := GuessEntries(guesses))];
    assert forall i :: 0 <= i < |rs| && i != r ==> rs[i] == rounds[i];
  }

  /**
   * Completing a scored round keeps the progress invariant, and so does
   * moving on to the next round with the next dealer and a fresh round.
   */
  lemma ProgressAfterResults(players: nat, maxRounds: int, firstDealer: int, currentRound: int, dealer: int, rounds: seq<Round>, r: int, x: Round)
    requires Progress(players, maxRounds, firstDealer, currentRound, dealer, rounds)
    requires 0 <= r < |rounds|
    requires x.number == rounds[r].number && x.cards == rounds[r].cards && |x.results| == players && x.completed
    ensures Progress(players, maxRounds, firstDealer, currentRound, dealer, rounds[r := x])
    ensures currentRound < maxRounds ==>
      Progress(players, maxRounds, firstDealer, currentRound + 1, NextDealer(dealer, players),
               rounds[r := x] + [Round(currentRound + 1, CardsForRound(maxRounds, currentRound + 1), false, Blank(players))])
  {
    ReplaceCompletedRound(rounds, r, x, maxRounds, players);
    if currentRound < maxRounds {
      AppendScheduledRound(rounds[r := x], maxRounds, players);
      assert DealerForRound(firstDealer, currentRound + 1, players) == NextDealer(dealer, players);
    }
  }

  /** Adds up the guesses that were entered. */
  method SumGuesses(guesses: seq<Option<int>>) returns (total: int)
    ensures total == GuessTotal(guesses)
  {
    total := 0;
    var i := 0;
    while i < |guesses|
      invariant 0 <= i <= |guesses|
      invariant total == GuessTotal(guesses[..i])
    {
      assert guesses[..i + 1][..i] == guesses[..i];
      if guesses[i].Some? {
        total := total + guesses[i].value;
      }
      i := i + 1;
    }
    assert guesses[..i] == guesses;
  }

  /** Sets hits and points on every row that received a hit count. */
  method ScoreRows(res: seq<Option<Entry>>, hits: seq<Option<int>>) returns (scored: seq<Option<Entry>>)
    requires |hits| == |res|
    ensures scored == ScoreResults(res, hits)
  {
    scored := res;
    var s := 0;
    while s < |res|
      invariant 0 <= s <= |res| == |scored|
      invariant forall t :: 0 <= t < s ==> scored[t] == ScoreEntry(res[t], hits[t])
      invariant forall t :: s <= t < |res| ==> scored[t] == res[t]
    {
      if scored[s].Some? && hits[s].Some? {
        var guess, h := scored[s].value.guess, hits[s].value;
        scored := scored[s := Some(Entry(guess, Some(h), Some(Score(guess, h))))];
      }
      s := s + 1;
    }
  }

  /**
   * Adds each row's points to its seat's total; `ok` is false when a row
   * has no points, where the source raises.
   */
  method AddRoundPoints(totals: seq<int>, rd: Round) returns (ok: bool, added: seq<int>)
    requires |rd.results| == |totals|
    ensures ok == AllScored(rd.results)
    ensures ok ==> added == AddGains(totals, rd)
  {
    added := totals;
    var s := 0;
    while s < |totals|
      invariant 0 <= s <= |totals| == |added|
      invariant forall u :: 0 <= u < s ==> added[u] == totals[u] + Gain(rd, u)
      invariant forall u :: s <= u < |totals| ==> added[u] == totals[u]
      invariant forall u :: 0 <= u < s && rd.results[u].Some? ==> Scored(rd.results[u])
    {
      var row := rd.results[s];
      if row.Some? {
        if row.value.points.None? {
          return false, added;
        }
        added := added[s := added[s] + row.value.points.value];
      }
      s := s + 1;
    }
    ok := true;
  }

  /**
   * The first half of the results handler: the round's rows scored, the
   * round completed and its points added to the totals.
   */
  method ScoreAndTally(rd: Round, hits: seq<Option<int>>, totals: seq<int>) returns (ok: bool, scored: Round, added: seq<int>)
    requires |hits| == |rd.results| == |totals|
    ensures scored == ScoreRound(rd, hits)
    ensures ok == AllScored(scored.results)
    ensures ok ==> added == AddGains(totals, scored)
  {
    var res := ScoreRows(rd.results, hits);
    scored := rd.(results := res, completed := true);
    ok, added := AddRoundPoints(totals, scored);
  }

  /** Writes every edited cell's row, leaving completion flags alone. */
  method UpsertRows(rounds: seq<Round>, edits: map<Cell, Edit>) returns (rs: seq<Round>)
    ensures |rs| == |rounds|
    ensures forall k :: 0 <= k < |rs| ==> rs[k] == rounds[k].(results := EditResults(rounds[k].results, k, edits))
  {
    rs := rounds;
    var i := 0;
    while i < |rs|
      invariant 0 <= i <= |rs| == |rounds|
      invariant forall k :: 0 <= k < i ==> rs[k] == rounds[k].(results := EditResults(rounds[k].results, k, edits))
      invariant forall k :: i <= k < |rs| ==> rs[k] == rounds[k]
    {
      var res := rs[i].results;
      var s := 0;
      while s < |res|
        invariant 0 <= s <= |res| == |rounds[i].results|
        invariant forall u :: 0 <= u < s ==> res[u] == EditResults(rounds[i].results, i, edits)[u]
        invariant forall u :: s <= u < |res| ==> res[u] == rounds[i].results[u]
      {
        if Cell(i, s) in edits {
          var e := edits[Cell(i, s)];
          res := res[s := Some(Entry(e.guess, Some(e.hits), Some(Score(e.guess, e.hits))))];
        }
        s := s + 1;
      }
      assert res == EditResults(rounds[i].results, i, edits);
      rs := rs[i := rs[i].(results := res)];
      i := i + 1;
    }
  }

  /** Recomputes every seat's total from the rows, skipping rows without points. */
  method RecomputeTotals(rs: seq<Round>, players: nat) returns (totals: seq<int>)
    ensures totals == RecomputedTotals(rs, players)
  {
    totals := [];
    var s := 0;
    while s < players
      invariant 0 <= s <= players && |totals| == s
      invariant forall u :: 0 <= u < s ==> totals[u] == TotalOf(rs, u)
    {
      var total := 0;
      var j := 0;
      while j < |rs|
        invariant 0 <= j <= |rs|
        invariant total == TotalOf(rs[..j], s)
      {
        assert rs[..j + 1][..j] == rs[..j];
        var res := rs[j].results;
        if s < |res| && res[s].Some? && res[s].value.points.Some? {
          total := total + res[s].value.points.value;
        }
        j := j + 1;
      }
      assert rs[..j] == rs;
      totals := totals + [total];
      s := s + 1;
    }
  }

  /** Marks every round that has a row as completed. */
  method MarkRoundsWithRows(rounds: seq<Round>) returns (rs: seq<Round>)
    ensures |rs| == |rounds|
    ensures forall k :: 0 <= k < |rs| ==> rs[k] == rounds[k].(completed := rounds[k].completed || HasResult(rounds[k].results))
  {
    rs := rounds;
    var k := 0;
    while k < |rs|
      invariant 0 <= k <= |rs| == |rounds|
      invariant forall m :: 0 <= m < k ==> rs[m] == rounds[m].(completed := rounds[m].completed || HasResult(rounds[m].results))
      invariant forall m :: k <= m < |rs| ==> rs[m] == rounds[m]
    {
      if HasResult(rs[k].results) {
        rs := rs[k := rs[k].(completed := true)];
      }
      k := k + 1;
    }
  }

  class Game {
    const players: nat
    const deck: Deck
    const forceConflict: bool
    const maxRounds: int
    /** The seat that dealt round 1, drawn at random when the game was created. */
    ghost const firstDealer: int

    var currentRound: int
    var dealer: int
    var isActive: bool
    var endedEarly: bool
    /** Whether the start time has been recorded. */
    var started: bool
    /** Whether the end time has been recorded. */
    var ended: bool
    /** All rounds created so far, in round-number order. */
    var rounds: seq<Round>
    /** Each seat's running total of points. */
    var totals: seq<int>

    ghost predicate Valid()
      reads this
    {
      && 2 <= players
      && maxRounds == MaxRounds(deck, players)
      && Progress(players, maxRounds, firstDealer, currentRound, dealer, rounds)
      && |totals| == players
    }

    /** Every stored total is the sum of that seat's points in the rows. */
    ghost predicate TotalsConsistent()
      reads this
    {
      TotalsMatch(totals, rounds, players)
    }

    /** The game as the creation handler stores it, for an accepted player count. */
    constructor (players: nat, deck: Deck, forceConflict: bool, initialDealer: int)
      requires 2 <= players && 0 <= initialDealer < players
      ensures Valid() && TotalsConsistent()
      ensures this.players == players && this.deck == deck && this.forceConflict == forceConflict
      ensures maxRounds == MaxRounds(deck, players)
      ensures currentRound == 1 && dealer == initialDealer
      ensures isActive && !endedEarly && !started && !ended
      ensures rounds == [Round(1, 1, false, Blank(players))]
      ensures totals == seq(players, s => 0)
    {
      this.players := players;
      this.deck := deck;
      this.forceConflict := forceConflict;
      maxRounds := MaxRounds(deck, players);
      firstDealer := initialDealer;
      currentRound := 1;
      dealer := initialDealer;
      isActive := true;
      endedEarly := false;
      started := false;
      ended := false;
      rounds := [Round(1, 1, false, Blank(players))];
      totals := seq(players, s => 0);
    }

    /**
     * Records a round's guesses.  `guesses[s]` is seat `s`'s guess if one
     * was entered.  With the forced-conflict rule on, a set whose sum equals
     * the round's cards is refused; otherwise the round's rows are replaced
     * by the new guesses, and the start is recorded on round 1.
     */
    method SubmitGuesses(r: int, guesses: seq<Option<int>>) returns (outcome: Outcome<Error>)
      requires Valid()
      requires |guesses| == players
      modifies this
      ensures Valid()
      ensures !(0 <= r < |old(rounds)|) ==> outcome == Fail(NotFound)
      ensures 0 <= r < |old(rounds)| ==>
        outcome == if forceConflict && GuessTotal(guesses) == old(rounds[r].cards)
                   then Fail(ForcedConflict(GuessTotal(guesses), old(rounds[r].cards)))
                   else Pass
      ensures outcome.Fail? ==> unchanged(this)
      ensures outcome.Pass? ==>
        && 0 <= r < |old(rounds)|
        && rounds == old(rounds)[r := old(rounds[r]).(results := GuessEntries(guesses))]
        && started == (old(started) || old(rounds[r].number) == 1)
        && currentRound == old(currentRound) && dealer == old(dealer) && totals == old(totals)
        && isActive == old(isActive) && endedEarly == old(endedEarly) && ended == old(ended)
      ensures old(TotalsConsistent()) && (outcome.Fail? || !old(rounds[r].completed)) ==> TotalsConsistent()
    {
      if !(0 <= r < |rounds|) {
        return Fail(NotFound);
      }
      var round := rounds[r];
      var total := SumGuesses(guesses);
      if forceConflict && total == round.cards {
        return Fail(ForcedConflict(total, round.cards));
      }
      ghost var before := rounds;
      ProgressAfterGuesses(players, maxRounds, firstDealer, currentRound, dealer, rounds, r, guesses);
      rounds := rounds[r := round.(results := GuessEntries(guesses))];
      if round.number == 1 && !started {
        started := true;
      }
      outcome := Pass;
      if TotalsMatch(totals, before, players) && !round.completed {
        forall s | 0 <= s < players ensures totals[s] == TotalOf(rounds, s) {
          TotalOfUpdate(before, r, rounds[r], s);
        }
      }
    }

    /**
     * Records a round's hits.  `hits[s]` is seat `s`'s hit count if one was
     * entered; a seat with a row and a hit count has its hits and points
     * set.  The round is completed and every row's points are added to its
     * seat's total; a row still without points makes the source raise, and
     * nothing is stored.  Then the game moves to the next round with the
     * next dealer, or, after the last round, stops.
     */
    method SubmitResults(r: int, hits: seq<Option<int>>) returns (outcome: Outcome<Error>)
      requires Valid()
      requires |hits| == players
      modifies this
      ensures Valid()
      ensures !(0 <= r < |old(rounds)|) ==> outcome == Fail(NotFound)
      ensures 0 <= r < |old(rounds)| ==>
        outcome == if AllScored(ScoreRound(old(rounds[r]), hits).results) then Pass else Fail(UnscoredResult)
      ensures outcome.Fail? ==> unchanged(this)
      ensures outcome.Pass? ==>
        && 0 <= r < |old(rounds)|
        && totals == AddGains(old(totals), ScoreRound(old(rounds[r]), hits))
        && started == old(started) && endedEarly == old(endedEarly)
      ensures outcome.Pass? && old(currentRound) < maxRounds ==>
        && currentRound == old(currentRound) + 1
        && dealer == NextDealer(old(dealer), players)
        && rounds == old(rounds)[r := ScoreRound(old(rounds[r]), hits)]
                     + [Round(currentRound, CardsForRound(maxRounds, currentRound), false, Blank(players))]
        && isActive == old(isActive) && ended == old(ended)
      ensures outcome.Pass? && old(currentRound) >= maxRounds ==>
        && currentRound == old(currentRound) && dealer == old(dealer)
        && rounds == old(rounds)[r := ScoreRound(old(rounds[r]), hits)]
        && !isActive && ended
      ensures old(TotalsConsistent()) && (outcome.Fail? || !old(rounds[r].completed)) ==> TotalsConsistent()
    {
      if !(0 <= r < |rounds|) {
        return Fail(NotFound);
      }
      var round := rounds[r];
      var ok, scored, t := ScoreAndTally(round, hits, totals);
      if !ok {
        return Fail(UnscoredResult);
      }
      ghost var consistent := TotalsConsistent() && !round.completed;
      var next := rounds[r := scored];
      ProgressAfterResults(players, maxRounds, firstDealer, currentRound, dealer, rounds, r, scored);
      if consistent {
        TotalsAfterScoring(totals, rounds, r, scored, players);
      }
      if currentRound < maxRounds {
        var cards := CardsForRound(maxRounds, currentRound + 1);
        var newRound := Round(currentRound + 1, cards, false, Blank(players));
        if consistent {
          TotalsAfterAppend(t, next, newRound, players);
        }
        next := next + [newRound];
        currentRound := currentRound + 1;
        dealer := NextDealer(dealer, players);
      } else {
        isActive := false;
        ended := true;
      }
      rounds := next;
      totals := t;
      outcome := Pass;
    }

    /** Ends the game before its schedule runs out; nothing checks that it is still running. */
    method ForceEndGame()
      requires Valid()
      modifies this
      ensures Valid()
      ensures !isActive && endedEarly && ended
      ensures rounds == old(rounds) && totals == old(totals) && started == old(started)
      ensures currentRound == old(currentRound) && dealer == old(dealer)
    {
      isActive := false;
      endedEarly := true;
      ended := true;
    }

    /**
     * The administrative edit: every edited cell's row is created or
     * overwritten with its guess, hits and recomputed points; then every
     * total is recomputed from the rows, whatever it was before; then every
     * round with a row is marked completed.  No other check is made.
     */
    method EditGame(edits: map<Cell, Edit>)
      requires Valid()
      modifies this
      ensures Valid() && TotalsConsistent()
      ensures rounds == ApplyEdits(old(rounds), edits)
      ensures totals == RecomputedTotals(rounds, players)
      ensures forall i :: 0 <= i < |rounds| && HasResult(rounds[i].results) ==> rounds[i].completed
      ensures currentRound == old(currentRound) && dealer == old(dealer)
      ensures isActive == old(isActive) && endedEarly == old(endedEarly)
      ensures started == old(started) && ended == old(ended)
    {
      var upserted := UpsertRows(rounds, edits);
      var newTotals := RecomputeTotals(upserted, players);
      var rs := MarkRoundsWithRows(upserted);
      assert rs == ApplyEdits(rounds, edits);
      EditsCompleteRounds(rounds, edits);
      forall u | 0 <= u < players ensures newTotals[u] == TotalOf(rs, u) {
        TotalOfIgnoresCompletion(upserted, rs, u);
        assert newTotals[u] == TotalOf(upserted, u);
      }
      rounds := rs;
      totals := newTotals;
    }
  }

  /**
   * Creates a game for `players` players.  No players, or only one, is
   * refused; `initialDealer` stands for the random draw of the first dealer.
   */
  method NewGame(players: nat, deck: Deck, forceConflict: bool, initialDealer: int) returns (result: Result<Game, Error>)
    requires 2 <= players ==> 0 <= initialDealer < players
    ensures players == 0 ==> result == Err(NoPlayersSelected)
    ensures players == 1 ==> result == Err(TooFewPlayers)
    ensures players >= 2 ==>
      && result.Ok? && fresh(result.value)
      && result.value.Valid() && result.value.TotalsConsistent()
      && result.value.players == players && result.value.deck == deck && result.value.forceConflict == forceConflict
      && result.value.maxRounds == MaxRounds(deck, players)
      && result.value.dealer == initialDealer && result.value.currentRound == 1
      && result.value.rounds == [Round(1, 1, false, Blank(players))]
      && result.value.totals == seq(players, s => 0)
      && result.value.isActive && !result.value.endedEarly
      && !result.value.started && !result.value.ended
  {
    if players == 0 {
      return Err(NoPlayersSelected);
    }
    if players < 2 {
      return Err(TooFewPlayers);
    }
    var g := new Game(players, deck, forceConflict, initialDealer);
    return Ok(g);
  }

  /** In a game whose totals match its rows, every seat's chart line ends at its stored total. */
  lemma ChartEndsAtTotal(g: Game, seat: int)
    requires g.Valid() && g.TotalsConsistent() && 0 <= seat < g.players
    ensures Series(g.rounds, seat)[|Series(g.rounds, seat)| - 1] == g.totals[seat]
  {
    SeriesEndsAtTotal(g.rounds, seat);
    CompletedTotal(g.rounds, seat);
  }

  /**
   * When the deck holds a card for every player, every round the game has
   * created deals what the pyramid schedule says, between one card and the
   * largest hand, and the current round is within the schedule.
   */
  lemma RoundsFollowPyramid(g: Game)
    requires g.Valid() && g.players <= Capacity(g.deck)
    ensures g.currentRound <= g.maxRounds
    ensures forall i :: 0 <= i < |g.rounds| ==>
      g.rounds[i].cards == CardsForRound(g.maxRounds, i + 1) && 1 <= g.rounds[i].cards <= Capacity(g.deck) / g.players
  {
    PeakIsLargestHand(g.deck, g.players);
    ScheduleEnds(g.maxRounds);
  }

  /**
   * The arithmetic of the opening round of a three-player game, where each
   * player holds one card.  Guesses 0, 0, 1 add up to the card count; 0, 0, 0 do
   * not; hits 0, 0, 1 then score 10, 10 and -2.
   */
  lemma OpeningRound()
    ensures GuessTotal([Some(0), Some(0), Some(1)]) == 1
    ensures GuessTotal([Some(0), Some(0), Some(0)]) == 0
    ensures var rd := Round(1, 1, false, GuessEntries([Some(0), Some(0), Some(0)]));
      var scored := ScoreRound(rd, [Some(0), Some(0), Some(1)]);
      && AllScored(scored.results)
      && AddGains([0, 0, 0], scored) == [10, 10, -2]
  {
    assert [Some(0), Some(0), Some(1)][..2] == [Some(0), Some(0)];
    assert [Some(0), Some(0), Some(0)][..2] == [Some(0), Some(0)];
    assert [Some(0), Some(0)][..1] == [Some(0)];
    var rd := Round(1, 1, false, GuessEntries([Some(0), Some(0), Some(0)]));
    var scored := ScoreRound(rd, [Some(0), Some(0), Some(1)]);
    assert scored.results == [Some(Entry(0, Some(0), Some(10))), Some(Entry(0, Some(0), Some(10))), Some(Entry(0, Some(1), Some(-2)))];
  }

  /**
   * The opening round of a three-player single-deck game with forced
   * conflict on.  The conflicting guesses are refused,
   * the others accepted, and the hits open round 2 with two cards and the
   * next dealer.
   */
  method ThreePlayerOpening() returns (refused: Outcome<Error>, totals: seq<int>, round: int, cards: int, dealer: int)
    ensures refused == Fail(ForcedConflict(1, 1))
    ensures totals == [10, 10, -2]
    ensures round == 2 && cards == 2 && dealer == 1
  {
    OpeningRound();
    var g := new Game(3, Single, true, 0);
    assert g.maxRounds == 33;
    refused := g.SubmitGuesses(0, [Some(0), Some(0), Some(1)]);
    var o := g.SubmitGuesses(0, [Some(0), Some(0), Some(0)]);
    assert o == Pass;
    assert g.rounds[0] == Round(1, 1, false, GuessEntries([Some(0), Some(0), Some(0)]));
    o := g.SubmitResults(0, [Some(0), Some(0), Some(1)]);
    assert o == Pass;
    totals, round, cards, dealer := g.totals, g.currentRound, g.rounds[1].cards, g.dealer;
  }

  /** Submitting the same edit form twice leaves the game as submitting it once does. */
  method EditTwice(g: Game, edits: map<Cell, Edit>)
    requires g.Valid()
    modifies g
    ensures g.Valid() && g.TotalsConsistent()
    ensures g.rounds == ApplyEdits(old(g.rounds), edits)
    ensures g.totals == RecomputedTotals(g.rounds, g.players)
  {
    g.EditGame(edits);
    ghost var once := g.rounds;
    g.EditGame(edits);
    EditIdempotent(old(g.rounds), edits);
    assert g.rounds == once;
  }

  /**
   * Nothing stops results from being submitted again for a round that is
   * already completed: its points are then added a second time and the
   * totals no longer match the rows.
   */
  lemma ResubmittedResultsCountTwice()
    ensures var rs := [Round(1, 1, true, [Some(Entry(0, Some(0), Some(10))), Some(Entry(0, Some(1), Some(-2)))])];
      var hits := [Some(0), Some(1)];
      var again := ScoreRound(rs[0], hits);
      && TotalsMatch([10, -2], rs, 2)
      && AllScored(again.results)
      && AddGains([10, -2], again) == [20, -4]
      && !TotalsMatch(AddGains([10, -2], again), rs[0 := again], 2)
  {
    var rs := [Round(1, 1, true, [Some(Entry(0, Some(0), Some(10))), Some(Entry(0, Some(1), Some(-2)))])];
    var again := ScoreRound(rs[0], [Some(0), Some(1)]);
    assert again == rs[0];
    assert rs[..0] == [];
    assert TotalOf(rs, 0) == 10;
  }
}
