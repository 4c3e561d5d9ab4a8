/**
 * How many rounds a game lasts and how many cards each round deals:
 * an up-then-down pyramid 1, 2, ..., k, ..., 2, 1 where k is the largest
 * hand the deck allows for the number of players.
 */
module Schedule {

  datatype Deck = Single | Double

  /** Usable cards of a deck: 51 for a single deck, 103 for a double one. */
  function Capacity(deck: Deck): (c: nat)
    ensures c == 51 || c == 103
  {
    if deck == Double then 103 else 51
  }

  /**
   * The number of rounds of a new game: twice the largest hand, minus one.
   * The source divides in floating point and floors; for a positive player
   * count that is integer division.  Nothing rejects more players than cards,
   * in which case the largest hand is 0 and the count is -1.
   */
  function MaxRounds(deck: Deck, players: int): (r: int)
    requires players > 0
    ensures r % 2 == 1
    ensures r >= -1
    ensures players <= Capacity(deck) <==> r >= 1
  {
    2 * (Capacity(deck) / players) - 1
  }

  /** The largest hand of a schedule, recovered from its round count as the engine does. */
  function Peak(maxRounds: int): (m: int)
    ensures maxRounds >= 1 ==> 1 <= m <= maxRounds
    ensures maxRounds % 2 == 1 ==> 2 * m - 1 == maxRounds
  {
    maxRounds / 2 + 1
  }

  /**
   * Cards dealt to each player in round `round` (rounds are numbered from 1):
   * the round number on the way up, mirrored on the way down.
   */
  function CardsForRound(maxRounds: int, round: int): (c: int)
    ensures maxRounds % 2 == 1 && 1 <= round <= maxRounds ==> 1 <= c <= Peak(maxRounds)
    ensures c <= Peak(maxRounds)
  {
    var m := Peak(maxRounds);
    if round <= m then round else m - (round - m)
  }

  /** The largest hand of the schedule is the largest hand the deck allows. */
  lemma PeakIsLargestHand(deck: Deck, players: int)
    requires players > 0
    ensures Peak(MaxRounds(deck, players)) == Capacity(deck) / players
    ensures Peak(MaxRounds(deck, players)) * players <= Capacity(deck)
  {
  }

  /** The schedule starts with one card per player, peaks at round `Peak` and ends with one card. */
  lemma ScheduleEnds(maxRounds: int)
    requires maxRounds >= 1 && maxRounds % 2 == 1
    ensures CardsForRound(maxRounds, 1) == 1
    ensures CardsForRound(maxRounds, Peak(maxRounds)) == Peak(maxRounds)
    ensures CardsForRound(maxRounds, maxRounds) == 1
    ensures 2 * Peak(maxRounds) - 1 == maxRounds
  {
  }

  /** The schedule reads the same forwards and backwards. */
  lemma ScheduleSymmetric(maxRounds: int, round: int)
    requires maxRounds % 2 == 1
    requires 1 <= round <= maxRounds
    ensures CardsForRound(maxRounds, round) == CardsForRound(maxRounds, maxRounds + 1 - round)
  {
  }

  /** Consecutive rounds differ by one card: one more before the peak, one fewer after it. */
  lemma SchedulePyramid(maxRounds: int, round: int)
    requires maxRounds % 2 == 1
    requires 1 <= round < maxRounds
    ensures round < Peak(maxRounds) ==> CardsForRound(maxRounds, round + 1) == CardsForRound(maxRounds, round) + 1
    ensures round >= Peak(maxRounds) ==> CardsForRound(maxRounds, round + 1) == CardsForRound(maxRounds, round) - 1
  {
  }

  /** Only the peak round deals the largest hand. */
  lemma PeakIsUnique(maxRounds: int, round: int)
    requires CardsForRound(maxRounds, round) == Peak(maxRounds)
    ensures round == Peak(maxRounds)
  {
  }

  /** Three players with a single deck: 33 rounds, peak 17. */
  lemma ThreePlayersSingleDeck()
    ensures MaxRounds(Single, 3) == 33
    ensures Peak(33) == 17
    ensures CardsForRound(33, 2) == 2 && CardsForRound(33, 18) == 16
  {
  }
}
