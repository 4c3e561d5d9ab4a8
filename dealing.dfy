/**
 * Who deals each round and in which order players act: the dealer moves
 * one seat on per round, and play starts with the seat after the dealer
 * and ends with the dealer.  Seats are numbered 0 .. n-1 in the game's
 * fixed seating order.
 */
module Dealing {

  /** Division with remainder is unique: the arithmetic fact every rotation proof rests on. */
  lemma ModUnique(x: int, q: int, r: int, n: int)
    requires n > 0 && 0 <= r < n && x == q * n + r
    ensures x % n == r && x / n == q
  {
    var q', r' := x / n, x % n;
    assert x == q' * n + r';
    var d := q - q';
    assert d * n == r' - r by { MulSub(q, q', n); }
    if d >= 1 {
      MulAtLeast(d, n);
    } else if d <= -1 {
      MulAtLeast(-d, n);
    }
  }

  lemma MulSub(a: int, b: int, n: int)
    ensures (a - b) * n == a * n - b * n
  {
  }

  lemma MulAtLeast(d: int, n: int)
    requires d >= 1 && n > 0
    ensures d * n >= n
  {
  }

  /** The seat that deals after seat `dealer`. */
  function NextDealer(dealer: int, players: int): (d: int)
    requires players > 0
    ensures 0 <= d < players
  {
    (dealer + 1) % players
  }

  /** The dealer moves exactly one seat on, wrapping from the last seat to the first. */
  lemma NextDealerStep(dealer: int, players: int)
    requires 0 <= dealer < players
    ensures NextDealer(dealer, players) == if dealer == players - 1 then 0 else dealer + 1
  {
    if dealer == players - 1 {
      ModUnique(dealer + 1, 1, 0, players);
    } else {
      ModUnique(dealer + 1, 0, dealer + 1, players);
    }
  }

  /** The dealer of round `round` when seat `first` dealt round 1: one rotation per round. */
  function DealerForRound(first: int, round: int, players: int): (d: int)
    requires players > 0
    requires round >= 1
    ensures round == 1 ==> d == first
    ensures round > 1 ==> 0 <= d < players
    decreases round
  {
    if round == 1 then first else NextDealer(DealerForRound(first, round - 1, players), players)
  }

  /** Moving on from the wrapped seat `a` is the same as wrapping `a + 1`. */
  lemma NextDealerWraps(a: int, players: int)
    requires players > 0
    ensures NextDealer(a % players, players) == (a + 1) % players
  {
    var q, r := a / players, a % players;
    assert a == q * players + r;
    NextDealerStep(r, players);
    if r + 1 < players {
      ModUnique(a + 1, q, r + 1, players);
    } else {
      assert a + 1 == (q + 1) * players by { MulSub(q + 1, 1, players); }
      ModUnique(a + 1, q + 1, 0, players);
    }
  }

  /** The rotation in closed form: round `k` is dealt by seat `first + k - 1`, wrapped. */
  lemma {:induction false} DealerClosedForm(first: int, round: int, players: int)
    requires players > 0 && 0 <= first < players && round >= 1
    ensures DealerForRound(first, round, players) == (first + round - 1) % players
  {
    if round == 1 {
      ModUnique(first, 0, first, players);
    } else {
      DealerClosedForm(first, round - 1, players);
      NextDealerWraps(first + round - 2, players);
    }
  }

  /** Every dealer of a game with a valid first dealer is a seat. */
  lemma {:induction false} DealerInRange(first: int, round: int, players: int)
    requires players > 0 && 0 <= first < players && round >= 1
    ensures 0 <= DealerForRound(first, round, players) < players
  {
    if round > 1 { DealerInRange(first, round - 1, players); }
  }

  /** Two numbers less than `n` apart wrap to different seats. */
  lemma ModDistinct(a: int, b: int, n: int)
    requires n > 0 && a < b < a + n
    ensures a % n != b % n
  {
    if a % n == b % n {
      var qa, qb := a / n, b / n;
      assert a == qa * n + a % n && b == qb * n + b % n;
      assert b - a == (qb - qa) * n by { MulSub(qb, qa, n); }
      if qb - qa >= 1 { MulAtLeast(qb - qa, n); }
      else if qb - qa <= -1 { MulAtLeast(qa - qb, n); MulSub(qa, qb, n); }
    }
  }

  /** Within any `players` consecutive rounds every seat deals. */
  lemma DealerVisitsEverySeat(first: int, start: int, seat: int, players: int)
    requires players > 0 && 0 <= first < players && start >= 1 && 0 <= seat < players
    ensures exists k :: start <= k < start + players && DealerForRound(first, k, players) == seat
  {
    var t := seat - first - start + 1;
    var q, off := t / players, t % players;
    assert t == q * players + off;
    var k := start + off;
    assert first + k - 1 == (0 - q) * players + seat by { MulSub(0, q, players); }
    ModUnique(first + k - 1, 0 - q, seat, players);
    DealerClosedForm(first, k, players);
  }

  /** Within any `players` consecutive rounds no seat deals twice. */
  lemma DealersDistinct(first: int, k: int, j: int, players: int)
    requires players > 0 && 0 <= first < players && 1 <= k < j < k + players
    ensures DealerForRound(first, k, players) != DealerForRound(first, j, players)
  {
    DealerClosedForm(first, k, players);
    DealerClosedForm(first, j, players);
    ModDistinct(first + k - 1, first + j - 1, players);
  }

  /**
   * The order in which seats act: the seat after the dealer first, the
   * dealer last.
   */
  function PlayOrder(dealer: int, players: int): (order: seq<int>)
    requires players > 0
    ensures |order| == players
    ensures forall i :: 0 <= i < players ==> 0 <= order[i] < players
  {
    seq(players, i requires 0 <= i < players => (dealer + 1 + i) % players)
  }

  /** Play starts with the next dealer and ends with the dealer. */
  lemma PlayOrderEnds(dealer: int, players: int)
    requires 0 <= dealer < players
    ensures PlayOrder(dealer, players)[0] == NextDealer(dealer, players)
    ensures PlayOrder(dealer, players)[players - 1] == dealer
  {
    ModUnique(dealer + players, 1, dealer, players);
  }

  /** Position `i` of the play order, without the wrap-around. */
  lemma PlayOrderAt(dealer: int, players: int, i: int)
    requires 0 <= dealer < players && 0 <= i < players
    ensures PlayOrder(dealer, players)[i] == if dealer + 1 + i < players then dealer + 1 + i else dealer + 1 + i - players
  {
    if dealer + 1 + i < players {
      ModUnique(dealer + 1 + i, 0, dealer + 1 + i, players);
    } else {
      ModUnique(dealer + 1 + i, 1, dealer + 1 + i - players, players);
    }
  }

  /** The play order lists every seat exactly once. */
  lemma PlayOrderIsPermutation(dealer: int, players: int)
    requires 0 <= dealer < players
    ensures forall seat :: 0 <= seat < players ==> seat in PlayOrder(dealer, players)
    ensures forall i, j :: 0 <= i < j < players ==> PlayOrder(dealer, players)[i] != PlayOrder(dealer, players)[j]
  {
    var order := PlayOrder(dealer, players);
    forall seat | 0 <= seat < players ensures seat in order {
      var i := if seat > dealer then seat - dealer - 1 else seat - dealer - 1 + players;
      PlayOrderAt(dealer, players, i);
      assert order[i] == seat;
    }
    forall i, j | 0 <= i < j < players ensures order[i] != order[j] {
      PlayOrderAt(dealer, players, i);
      PlayOrderAt(dealer, players, j);
    }
  }
}
