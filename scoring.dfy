/** The points a player earns for a round from their guess and their actual hits. */
module Scoring {

  function Abs(x: int): (a: int)
    ensures a >= 0 && (a == x || a == -x)
  {
    if x < 0 then -x else x
  }

  /**
   * An exact guess earns ten points plus two per hit; a miss costs two
   * points per trick of error.  Neither argument is range-checked.
   */
  function Score(guess: int, hits: int): (p: int)
    ensures guess == hits && hits >= 0 ==> p >= 10
    ensures guess != hits ==> p <= -2 && p % 2 == 0
    ensures hits >= 0 ==> (p > 0 <==> guess == hits)
  {
    if guess == hits then 10 + 2 * hits else -2 * Abs(guess - hits)
  }

  /** With a non-negative hit count the exact guess beats every other guess. */
  lemma ExactGuessIsBest(guess: int, hits: int)
    requires hits >= 0 && guess != hits
    ensures Score(guess, hits) < Score(hits, hits)
  {
  }

  /** Among misses, a guess further from the hits never scores more. */
  lemma PenaltyGrowsWithError(near: int, far: int, hits: int)
    requires near != hits && far != hits
    requires Abs(near - hits) <= Abs(far - hits)
    ensures Score(far, hits) <= Score(near, hits)
  {
  }

  /** A miss costs exactly two points per trick of error, whichever side it errs on. */
  lemma MissPenalty(guess: int, hits: int)
    requires guess != hits
    ensures Score(guess, hits) == Score(hits, guess)
    ensures Score(guess, hits) / -2 == Abs(guess - hits)
  {
  }

  /** Four values of the rule: 3 of 3 earns 16, 2 against 5 costs 6, 0 of 0 earns 10, 0 against 1 costs 2. */
  lemma ScoreExamples()
    ensures Score(3, 3) == 16 && Score(2, 5) == -6 && Score(0, 0) == 10 && Score(0, 1) == -2
  {
  }
}
