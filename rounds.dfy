/**
 * The rows a game stores per round and the pure rules that rewrite them:
 * recording a set of guesses, scoring a set of hits, the administrative
 * edit, and the running total every player's score is derived from.
 */
module Rounds {
  import opened Wrappers
  import opened Scoring

  /** One player's row in one round: the guess, and the hits and points once known. */
  datatype Entry = Entry(guess: int, hits: Option<int>, points: Option<int>)

  /**
   * A round of a game.  `results[s]` is the row of seat `s`, if that seat
   * has one; in a game every round has one slot per seat.
   */
  datatype Round = Round(number: int, cards: int, completed: bool, results: seq<Option<Entry>>)

  /** The slots of a freshly created round: no rows yet. */
  function Blank(players: nat): (res: seq<Option<Entry>>)
    ensures |res| == players
    ensures forall s :: 0 <= s < players ==> res[s].None?
  {
    seq(players, s => None)
  }

  /** A row whose points are known. */
  predicate Scored(e: Option<Entry>)
  {
    e.Some? && e.value.points.Some?
  }

  predicate NoScores(res: seq<Option<Entry>>)
  {
    forall s :: 0 <= s < |res| ==> !Scored(res[s])
  }

  /** True when the round has at least one row. */
  predicate HasResult(res: seq<Option<Entry>>)
  {
    exists s :: 0 <= s < |res| && res[s].Some?
  }

  /** A round that is not completed carries no points. */
  predicate ScoredOnlyCompleted(rs: seq<Round>)
  {
    forall i :: 0 <= i < |rs| && !rs[i].completed ==> NoScores(rs[i].results)
  }

  /** The points seat `seat` earned in round `rd`; a missing row or unset points count as nothing. */
  function Gain(rd: Round, seat: int): (g: int)
    ensures NoScores(rd.results) ==> g == 0
  {
    if 0 <= seat < |rd.results| && Scored(rd.results[seat]) then rd.results[seat].value.points.value else 0
  }

  /** The sum of a seat's known points over the given rounds. */
  function TotalOf(rs: seq<Round>, seat: int): (t: int)
    ensures (forall i :: 0 <= i < |rs| ==> NoScores(rs[i].results)) ==> t == 0
  {
    if |rs| == 0 then 0 else TotalOf(rs[..|rs| - 1], seat) + Gain(rs[|rs| - 1], seat)
  }

  lemma TotalOfAppend(rs: seq<Round>, x: Round, seat: int)
    ensures TotalOf(rs + [x], seat) == TotalOf(rs, seat) + Gain(x, seat)
  {
    assert (rs + [x])[..|rs|] == rs;
  }

  /** Replacing one round changes a total by the difference of that round's points. */
  lemma {:induction false} TotalOfUpdate(rs: seq<Round>, i: int, x: Round, seat: int)
    requires 0 <= i < |rs|
    ensures TotalOf(rs[i := x], seat) == TotalOf(rs, seat) - Gain(rs[i], seat) + Gain(x, seat)
  {
    var last := |rs| - 1;
    if i < last {
      assert rs[i := x][..last] == rs[..last][i := x];
      TotalOfUpdate(rs[..last], i, x, seat);
    } else {
      assert rs[i := x][..last] == rs[..last];
    }
  }

  // ---- submitting guesses ----

  /** The sum of the guesses that were entered. */
  function GuessTotal(guesses: seq<Option<int>>): (t: int)
    ensures (forall s :: 0 <= s < |guesses| ==> guesses[s].None?) ==> t == 0
    ensures (forall s :: 0 <= s < |guesses| && guesses[s].Some? ==> guesses[s].value >= 0) ==> t >= 0
  {
    if |guesses| == 0 then 0
    else GuessTotal(guesses[..|guesses| - 1]) + (if guesses[|guesses| - 1].Some? then guesses[|guesses| - 1].value else 0)
  }

  /**
   * The rows that replace a round's rows when guesses are submitted: one
   * unscored row per seat that entered a guess, none for the others.
   */
  function GuessEntries(guesses: seq<Option<int>>): (res: seq<Option<Entry>>)
    ensures |res| == |guesses|
    ensures NoScores(res)
    ensures forall s :: 0 <= s < |res| ==> (res[s].Some? <==> guesses[s].Some?)
    ensures forall s :: 0 <= s < |res| && res[s].Some? ==> res[s].value == Entry(guesses[s].value, None, None)
  {
    seq(|guesses|, s requires 0 <= s < |guesses| => if guesses[s].Some? then Some(Entry(guesses[s].value, None, None)) else None)
  }

  // ---- submitting results ----

  /** A row that receives a hit count keeps its guess, records the hits and is scored. */
  function ScoreEntry(e: Option<Entry>, hits: Option<int>): (r: Option<Entry>)
    ensures r.Some? <==> e.Some?
    ensures e.Some? && hits.Some? ==> Scored(r) && r.value.points.value == Score(e.value.guess, hits.value)
  {
    if e.Some? && hits.Some? then Some(Entry(e.value.guess, hits, Some(Score(e.value.guess, hits.value)))) else e
  }

  /** The rows of a round after a set of hits is applied; seats without a row are ignored. */
  function ScoreResults(res: seq<Option<Entry>>, hits: seq<Option<int>>): (r: seq<Option<Entry>>)
    requires |hits| == |res|
    ensures |r| == |res|
    ensures forall s :: 0 <= s < |res| ==> r[s] == ScoreEntry(res[s], hits[s])
  {
    seq(|res|, s requires 0 <= s < |res| => ScoreEntry(res[s], hits[s]))
  }

  /** Every row of the round has its points. */
  predicate AllScored(res: seq<Option<Entry>>)
  {
    forall s :: 0 <= s < |res| && res[s].Some? ==> Scored(res[s])
  }

  /** The round once a set of hits is applied to it: its rows scored and the round completed. */
  function ScoreRound(rd: Round, hits: seq<Option<int>>): (r: Round)
    requires |hits| == |rd.results|
    ensures r.number == rd.number && r.cards == rd.cards && r.completed
    ensures r.results == ScoreResults(rd.results, hits)
  {
    rd.(results := ScoreResults(rd.results, hits), completed := true)
  }

  /** Each seat's total grown by what it earned in round `rd`. */
  function AddGains(totals: seq<int>, rd: Round): (t: seq<int>)
    ensures |t| == |totals|
    ensures forall s :: 0 <= s < |t| ==> t[s] == totals[s] + Gain(rd, s)
  {
    seq(|totals|, s requires 0 <= s < |totals| => totals[s] + Gain(rd, s))
  }

  // ---- the administrative edit ----

  /** A cell of the edit form: a round (by position) and a seat. */
  datatype Cell = Cell(round: int, seat: int)

  /** The guess and hits typed into one cell. */
  datatype Edit = Edit(guess: int, hits: int)

  /** The row an edit leaves: both values set and the points recomputed by the usual rule. */
  function EditEntry(e: Edit): (r: Entry)
    ensures r.guess == e.guess && r.hits == Some(e.hits) && r.points == Some(Score(e.guess, e.hits))
  {
    Entry(e.guess, Some(e.hits), Some(Score(e.guess, e.hits)))
  }

  /** The edit form scores a row exactly as submitting its hits does. */
  lemma EditScoresLikeResults(guess: int, hits: int, oldHits: Option<int>, oldPoints: Option<int>)
    ensures ScoreEntry(Some(Entry(guess, oldHits, oldPoints)), Some(hits)) == Some(EditEntry(Edit(guess, hits)))
  {
  }

  /** The rows of round `i` after the edits: edited cells are upserted, the rest kept. */
  function EditResults(res: seq<Option<Entry>>, i: int, edits: map<Cell, Edit>): (r: seq<Option<Entry>>)
    ensures |r| == |res|
    ensures forall s :: 0 <= s < |res| ==> r[s] == if Cell(i, s) in edits then Some(EditEntry(edits[Cell(i, s)])) else res[s]
  {
    seq(|res|, s requires 0 <= s < |res| => if Cell(i, s) in edits then Some(EditEntry(edits[Cell(i, s)])) else res[s])
  }

  /** Round `i` after the edits: its rows upserted, and completed if it now has any row. */
  function EditRound(rd: Round, i: int, edits: map<Cell, Edit>): (r: Round)
    ensures r.number == rd.number && r.cards == rd.cards
    ensures r.results == EditResults(rd.results, i, edits)
    ensures r.completed == (rd.completed || HasResult(r.results))
  {
    var res := EditResults(rd.results, i, edits);
    rd.(results := res, completed := rd.completed || HasResult(res))
  }

  /** Every round of the game after the edits. */
  function ApplyEdits(rs: seq<Round>, edits: map<Cell, Edit>): (r: seq<Round>)
    ensures |r| == |rs|
    ensures forall i :: 0 <= i < |rs| ==> r[i] == EditRound(rs[i], i, edits)
  {
    seq(|rs|, i requires 0 <= i < |rs| => EditRound(rs[i], i, edits))
  }

  /** Each seat's total recomputed from the rows alone. */
  function RecomputedTotals(rs: seq<Round>, players: nat): (t: seq<int>)
    ensures |t| == players
    ensures forall s :: 0 <= s < players ==> t[s] == TotalOf(rs, s)
  {
    seq(players, s => TotalOf(rs, s))
  }

  /** Totals depend on the rows only, not on which rounds are marked completed. */
  lemma {:induction false} TotalOfIgnoresCompletion(a: seq<Round>, b: seq<Round>, seat: int)
    requires |a| == |b|
    requires forall i :: 0 <= i < |a| ==> a[i].results == b[i].results
    ensures TotalOf(a, seat) == TotalOf(b, seat)
  {
    if |a| > 0 {
      TotalOfIgnoresCompletion(a[..|a| - 1], b[..|b| - 1], seat);
    }
  }

  /** After the edits, a round with a row is completed, so only completed rounds carry points. */
  lemma EditsCompleteRounds(rs: seq<Round>, edits: map<Cell, Edit>)
    requires ScoredOnlyCompleted(rs)
    ensures ScoredOnlyCompleted(ApplyEdits(rs, edits))
    ensures forall i :: 0 <= i < |rs| && HasResult(ApplyEdits(rs, edits)[i].results) ==> ApplyEdits(rs, edits)[i].completed
  {
    var r := ApplyEdits(rs, edits);
    forall i | 0 <= i < |rs| && !r[i].completed ensures NoScores(r[i].results) {
      assert !HasResult(r[i].results);
      forall s | 0 <= s < |r[i].results| ensures !Scored(r[i].results[s]) {
        assert r[i].results[s].None?;
      }
    }
  }

  /** Applying the same edits a second time changes nothing. */
  lemma EditIdempotent(rs: seq<Round>, edits: map<Cell, Edit>)
    ensures ApplyEdits(ApplyEdits(rs, edits), edits) == ApplyEdits(rs, edits)
  {
    var once := ApplyEdits(rs, edits);
    var twice := ApplyEdits(once, edits);
    forall i | 0 <= i < |rs| ensures twice[i] == once[i] {
      assert EditResults(once[i].results, i, edits) == once[i].results;
    }
  }
}
