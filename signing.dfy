/**
 * The letter gate shared by both games' `gotClassification`
 * (multiplayerpace.js and singleplayer.js): the classifier's verdict is reduced to the top
 * sign and whether its normalised confidence reached 0.6.
 */
module Signing {

  /** The minimum gap between two accepted letters, in milliseconds. */
  const MatchGapMs := 500

  /** A letter is accepted when the verdict is confident, names the expected letter, and comes more than 500 ms after the last one. */
  predicate Accepts(word: string, index: int, lastMatch: int, sign: string, confident: bool, millis: int)
  {
    confident && 0 <= index < |word| && sign == [word[index]] && millis - lastMatch > MatchGapMs
  }

  /**
   * A letter is never accepted past the end of the word; after an acceptance at `millis` the
   * next letter is refused, whatever the verdict, at any time `t` up to 500 ms later, and after
   * that the confident expected sign is accepted.
   */
  lemma AcceptanceBounds(word: string, index: int, lastMatch: int, sign: string, confident: bool, millis: int,
                         t: int, nextSign: string, nextConfident: bool)
    requires Accepts(word, index, lastMatch, sign, confident, millis)
    ensures 0 <= index < |word| && millis > lastMatch + MatchGapMs
    ensures t <= millis + MatchGapMs ==> !Accepts(word, index + 1, millis, nextSign, nextConfident, t)
    ensures index + 1 < |word| && t > millis + MatchGapMs ==> Accepts(word, index + 1, millis, [word[index + 1]], true, t)
  {
  }

  /** The letters accepted in a run, one after another. */
  function Spelled(signs: seq<string>): (r: string)
    ensures |signs| == 0 ==> r == ""
  {
    if signs == [] then "" else Spelled(signs[..|signs| - 1]) + signs[|signs| - 1]
  }

  /**
   * A run of acceptances, each at the next index and timed against the previous one (the
   * first against `start`), spells the start of the word, never runs past its end, and its
   * acceptances are more than 500 ms apart.
   */
  lemma {:induction false} AcceptedRunSpellsPrefix(word: string, start: int, signs: seq<string>, times: seq<int>)
    requires |signs| == |times|
    requires |signs| > 0 ==> Accepts(word, 0, start, signs[0], true, times[0])
    requires forall i :: 0 < i < |signs| ==> Accepts(word, i, times[i - 1], signs[i], true, times[i])
    ensures |signs| <= |word|
    ensures Spelled(signs) == word[..|signs|]
    ensures forall i :: 0 < i < |times| ==> times[i] > times[i - 1] + MatchGapMs
    decreases |signs|
  {
    if signs != [] {
      var n := |signs| - 1;
      var front, frontTimes := signs[..n], times[..n];
      assert forall i :: 0 <= i < n ==> front[i] == signs[i] && frontTimes[i] == times[i];
      AcceptedRunSpellsPrefix(word, start, front, frontTimes);
      assert signs[n] == [word[n]];
      assert word[..n + 1] == word[..n] + [word[n]];
    }
  }
}
