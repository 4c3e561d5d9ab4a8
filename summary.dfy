/**
 * What the game and summary pages derive from the stored rounds: each
 * player's chart line of cumulative points and their guess counters.
 * Rounds are read in round-number order, which is the order they were
 * created in.
 */
module Summary {
  import opened Wrappers
  import opened Rounds

  /** The completed rounds, in order. */
  function Completed(rs: seq<Round>): (c: seq<Round>)
    ensures |c| <= |rs|
  {
    if |rs| == 0 then []
    else Completed(rs[..|rs| - 1]) + (if rs[|rs| - 1].completed then [rs[|rs| - 1]] else [])
  }

  /** Every round the chart keeps is completed and comes from `rs`, and every completed round is kept. */
  lemma {:induction false} CompletedFilters(rs: seq<Round>)
    ensures forall k :: 0 <= k < |Completed(rs)| ==> Completed(rs)[k].completed && Completed(rs)[k] in rs
    ensures forall i :: 0 <= i < |rs| && rs[i].completed ==> rs[i] in Completed(rs)
  {
    if |rs| > 0 {
      var init := rs[..|rs| - 1];
      CompletedFilters(init);
      forall i | 0 <= i < |init| ensures init[i] in rs {
        assert init[i] == rs[i];
      }
    }
  }

  /**
   * The chart line of one seat: 0 before the first round, then the running
   * total after each completed round.
   */
  function Series(rs: seq<Round>, seat: int): (data: seq<int>)
    ensures |data| == 1 + |Completed(rs)|
    ensures data[0] == 0
  {
    if |rs| == 0 then [0]
    else
      var prev := Series(rs[..|rs| - 1], seat);
      var last := rs[|rs| - 1];
      if last.completed then prev + [prev[|prev| - 1] + Gain(last, seat)] else prev
  }

  /** The line ends at the sum of the seat's points over the completed rounds. */
  lemma {:induction false} SeriesEndsAtTotal(rs: seq<Round>, seat: int)
    ensures Series(rs, seat)[|Series(rs, seat)| - 1] == TotalOf(Completed(rs), seat)
  {
    if |rs| > 0 {
      var init := rs[..|rs| - 1];
      SeriesEndsAtTotal(init, seat);
      if rs[|rs| - 1].completed {
        TotalOfAppend(Completed(init), rs[|rs| - 1], seat);
      } else {
        assert Completed(rs) == Completed(init);
      }
    }
  }

  /** One round more extends the line only when that round is completed. */
  lemma SeriesPrefixStep(rs: seq<Round>, i: nat, seat: int)
    requires i < |rs|
    ensures rs[i].completed ==> Series(rs[..i + 1], seat) == Series(rs[..i], seat) + [Series(rs[..i], seat)[|Series(rs[..i], seat)| - 1] + Gain(rs[i], seat)]
    ensures !rs[i].completed ==> Series(rs[..i + 1], seat) == Series(rs[..i], seat)
  {
    var ys := rs[..i + 1];
    assert ys[..|ys| - 1] == rs[..i];
    assert ys[|ys| - 1] == rs[i];
  }

  /** Each point of the line is the previous one plus that completed round's points. */
  lemma {:induction false} SeriesSteps(rs: seq<Round>, seat: int)
    ensures forall i :: 0 <= i < |Completed(rs)| ==> Series(rs, seat)[i + 1] == Series(rs, seat)[i] + Gain(Completed(rs)[i], seat)
  {
    if |rs| > 0 {
      SeriesSteps(rs[..|rs| - 1], seat);
    }
  }

  /** When only completed rounds carry points, the line ends at the seat's full total. */
  lemma {:induction false} CompletedTotal(rs: seq<Round>, seat: int)
    requires ScoredOnlyCompleted(rs)
    ensures TotalOf(Completed(rs), seat) == TotalOf(rs, seat)
  {
    if |rs| > 0 {
      var init := rs[..|rs| - 1];
      var last := rs[|rs| - 1];
      assert ScoredOnlyCompleted(init) by {
        forall i | 0 <= i < |init| && !init[i].completed ensures NoScores(init[i].results) {
          assert init[i] == rs[i];
        }
      }
      CompletedTotal(init, seat);
      if last.completed {
        TotalOfAppend(Completed(init), last, seat);
      } else {
        assert NoScores(last.results);
        assert Completed(rs) == Completed(init);
      }
    }
  }

  /** A completed round in which the seat has a row without points: reading it fails. */
  predicate Unscored(rd: Round, seat: int)
  {
    rd.completed && 0 <= seat < |rd.results| && rd.results[seat].Some? && rd.results[seat].value.points.None?
  }

  /**
   * The points a completed round adds to a seat's running sum: nothing when
   * the seat has no row, and failure when its row has no points.
   */
  method RowPoints(rd: Round, seat: int) returns (ok: bool, gain: int)
    requires rd.completed
    ensures ok <==> !Unscored(rd, seat)
    ensures ok ==> gain == Gain(rd, seat)
  {
    ok, gain := true, 0;
    if 0 <= seat < |rd.results| && rd.results[seat].Some? {
      var e := rd.results[seat].value;
      if e.points.None? {
        ok := false;
      } else {
        gain := e.points.value;
      }
    }
  }

  /**
   * Builds a seat's chart line by walking the rounds with a running sum.
   * A completed round whose row has no points makes the source raise
   * (it adds an unset value), which is `None` here.
   */
  method CumulativeSeries(rounds: seq<Round>, seat: int) returns (data: Option<seq<int>>)
    ensures data.None? <==> exists i :: 0 <= i < |rounds| && Unscored(rounds[i], seat)
    ensures data.Some? ==> data.value == Series(rounds, seat)
  {
    var line := [0];
    var cumulative := 0;
    var i := 0;
    while i < |rounds|
      invariant 0 <= i <= |rounds|
      invariant line == Series(rounds[..i], seat)
      invariant cumulative == line[|line| - 1]
      invariant forall k :: 0 <= k < i ==> !Unscored(rounds[k], seat)
    {
      var rd := rounds[i];
      SeriesPrefixStep(rounds, i, seat);
      if rd.completed {
        var ok, gain := RowPoints(rd, seat);
        if !ok {
          assert Unscored(rounds[i], seat);
          return None;
        }
        cumulative := cumulative + gain;
        line := line + [cumulative];
      } else {
        assert !Unscored(rd, seat);
      }
      i := i + 1;
    }
    assert rounds[..i] == rounds;
    return Some(line);
  }

  /** The seat has a row in round `rd` and `rd` is completed. */
  predicate Played(rd: Round, seat: int)
  {
    rd.completed && 0 <= seat < |rd.results| && rd.results[seat].Some?
  }

  /** ... and its hits equal its guess. */
  predicate Correct(rd: Round, seat: int)
  {
    Played(rd, seat) && rd.results[seat].value.hits == Some(rd.results[seat].value.guess)
  }

  function PlayedCount(rs: seq<Round>, seat: int): (c: nat)
    ensures c <= |rs|
  {
    if |rs| == 0 then 0 else PlayedCount(rs[..|rs| - 1], seat) + (if Played(rs[|rs| - 1], seat) then 1 else 0)
  }

  function CorrectCount(rs: seq<Round>, seat: int): (c: nat)
    ensures c <= |rs|
  {
    if |rs| == 0 then 0 else CorrectCount(rs[..|rs| - 1], seat) + (if Correct(rs[|rs| - 1], seat) then 1 else 0)
  }

  /** No more correct guesses than guesses, and no more guesses than completed rounds. */
  lemma {:induction false} CountsBounded(rs: seq<Round>, seat: int)
    ensures CorrectCount(rs, seat) <= PlayedCount(rs, seat) <= |Completed(rs)|
  {
    if |rs| > 0 {
      CountsBounded(rs[..|rs| - 1], seat);
    }
  }

  /** Counts a seat's guesses and correct guesses over the completed rounds. */
  method GuessCounts(rounds: seq<Round>, seat: int) returns (correct: nat, total: nat)
    ensures correct == CorrectCount(rounds, seat) && total == PlayedCount(rounds, seat)
    ensures correct <= total <= |Completed(rounds)|
  {
    correct, total := 0, 0;
    var i := 0;
    while i < |rounds|
      invariant 0 <= i <= |rounds|
      invariant correct == CorrectCount(rounds[..i], seat)
      invariant total == PlayedCount(rounds[..i], seat)
    {
      var rd := rounds[i];
      assert rounds[..i + 1][..i] == rounds[..i];
      if rd.completed && 0 <= seat < |rd.results| && rd.results[seat].Some? {
        var e := rd.results[seat].value;
        total := total + 1;
        if e.hits == Some(e.guess) {
          correct := correct + 1;
        }
      }
      i := i + 1;
    }
    assert rounds[..i] == rounds;
    CountsBounded(rounds, seat);
  }

  /**
   * The edit marks a round completed as soon as it has a row, even a row
   * holding only a guess; reading that round's points then fails.
   */
  lemma EditCanLeaveUnscoredRow()
    ensures var rs := [Round(1, 1, false, [Some(Entry(0, None, None)), None])];
      var edited := ApplyEdits(rs, map[]);
      edited[0].completed && Unscored(edited[0], 0)
  {
    var rs := [Round(1, 1, false, [Some(Entry(0, None, None)), None])];
    assert EditResults(rs[0].results, 0, map[])[0].Some?;
  }
}
