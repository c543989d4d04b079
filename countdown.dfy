/**
 * The three-second countdown both games draw before a round
 * (`drawCountdown` in multiplayerpace.js and singleplayer.js): the screen shows
 * `3 - floor(elapsed / 1000)` while that is non-negative and then starts the round.
 * Clock readings are whole milliseconds; for a positive divisor Dafny's `/` is floor division.
 */
module Countdown {

  const Seconds := 3

  /** The number on screen `elapsed` milliseconds after the countdown started. */
  function Remaining(elapsed: int): int
  {
    Seconds - elapsed / 1000
  }

  /** The round starts exactly once four full seconds have elapsed; until then the number shown is 3, 2, 1 or 0. */
  lemma EndsAfterFourSeconds(elapsed: int)
    ensures Remaining(elapsed) < 0 <==> elapsed >= 4000
    ensures 0 <= elapsed < 4000 ==> 0 <= Remaining(elapsed) <= Seconds
  {
  }
}
