/**
  The three quantities the scene derives from the current level: how often an
  asteroid spawns, how fast it flies, and how likely it is to be aimed at the
  player.
 */
module Difficulty {

  /** Milliseconds between spawns: 100 ms fewer per level, never below 500 ms. */
  function SpawnDelay(level: int): (d: int)
    ensures d >= 500
    ensures level <= 10 ==> d == 1500 - 100 * level
    ensures d == 500 <==> level >= 10
  {
    if 1500 - level * 100 < 500 then 500 else 1500 - level * 100
  }

  /** Speed an asteroid is given (pixels per frame): 0.5 more per level. */
  function BaseSpeed(level: int): (s: real)
    ensures level >= 1 ==> s >= 3.5
  {
    3.0 + (level as real) * 0.5
  }

  /** Chance that a new asteroid is aimed at the player: 0.1 more per level, capped at 0.8. */
  function TargetingProbability(level: int): (p: real)
    ensures p <= 0.8
    ensures level >= 5 ==> p == 0.8
    ensures level <= 5 ==> p == 0.3 + (level as real) * 0.1
  {
    if 0.3 + (level as real) * 0.1 < 0.8 then 0.3 + (level as real) * 0.1 else 0.8
  }

  lemma SpawnDelayNonIncreasing(lower: int, higher: int)
    requires lower <= higher
    ensures SpawnDelay(higher) <= SpawnDelay(lower)
  {
  }

  lemma SpawnDelayAtLevelOne()
    ensures SpawnDelay(1) == 1400
  {
  }

  lemma BaseSpeedIncreasing(lower: int, higher: int)
    requires lower < higher
    ensures BaseSpeed(lower) < BaseSpeed(higher)
  {
  }

  lemma TargetingProbabilityNonDecreasing(lower: int, higher: int)
    requires lower <= higher
    ensures TargetingProbability(lower) <= TargetingProbability(higher)
  {
  }
}
