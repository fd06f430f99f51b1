/**
  Score and level progression, as values: the per-frame accrual, the level-up
  transition and the single level-up check the scene makes each frame. The
  scene's fields are tied to these functions by its methods' contracts.
 */
module Progression {

  /** Score (and level progress) earned per elapsed millisecond. */
  const ScorePerMs: real := 0.01
  /** Progress needed to leave level 1. */
  const FirstThreshold: real := 1000.0
  /** Factor by which the threshold grows on every level-up. */
  const ThresholdGrowth: real := 1.2

  /**
    The scene's score, its progress towards the next level, the progress that
    level needs, and the level number.
   */
  datatype LevelState = LevelState(score: real, progress: real, threshold: real, level: int)

  /** The state a fresh or restarted session begins in. */
  function Initial(): (r: LevelState)
    ensures Consistent(r) && Earned(r)
  {
    LevelState(0.0, 0.0, FirstThreshold, 1)
  }

  /** Elapsed time `delta` (ms) adds the same amount to score and progress. */
  function Accrue(s: LevelState, delta: real): (r: LevelState)
    ensures r.score - s.score == r.progress - s.progress == delta * ScorePerMs
    ensures r.level == s.level && r.threshold == s.threshold
    ensures delta >= 0.0 ==> r.score >= s.score && r.progress >= s.progress
  {
    s.(score := s.score + delta * ScorePerMs, progress := s.progress + delta * ScorePerMs)
  }

  /** The level-up transition: next level, progress back to zero, a higher threshold. */
  function Promote(s: LevelState): (r: LevelState)
    ensures r.level == s.level + 1 && r.progress == 0.0 && r.score == s.score
    ensures s.threshold > 0.0 ==> r.threshold > s.threshold
    ensures s.level >= 1 && s.threshold == ThresholdAt(s.level) ==> Consistent(r)
  {
    s.(level := s.level + 1, progress := 0.0, threshold := s.threshold * ThresholdGrowth)
  }

  /** Whether the frame that accrues `delta` crosses the current threshold. */
  predicate Crosses(s: LevelState, delta: real) {
    Accrue(s, delta).progress >= s.threshold
  }

  /** One frame: accrue, then level up at most once. */
  function Frame(s: LevelState, delta: real): (r: LevelState)
    ensures r.score == s.score + delta * ScorePerMs
    ensures r.level == s.level || r.level == s.level + 1
    ensures Consistent(s) ==> Consistent(r)
  {
    var a := Accrue(s, delta);
    if a.progress >= a.threshold then Promote(a) else a
  }

  /** The threshold in force while at `level`. */
  function ThresholdAt(level: int): (t: real)
    requires level >= 1
    ensures t >= FirstThreshold
  {
    if level == 1 then FirstThreshold else ThresholdAt(level - 1) * ThresholdGrowth
  }

  /** The progress needed, in total, to climb from level 1 to `level`. */
  function ThresholdsBelow(level: int): real
    requires level >= 1
  {
    if level == 1 then 0.0 else ThresholdsBelow(level - 1) + ThresholdAt(level - 1)
  }

  /**
    What every frame maintains: a valid level whose threshold is the one that
    level should have, and progress below it (a level-up is never left pending).
   */
  predicate Consistent(s: LevelState) {
    s.level >= 1 && s.threshold == ThresholdAt(s.level) && s.progress < s.threshold
  }

  /**
    What frames with non-negative elapsed time maintain: progress is not negative,
    and the score covers every threshold passed plus the current progress.
   */
  predicate Earned(s: LevelState)
    requires s.level >= 1
  {
    0.0 <= s.progress && ThresholdsBelow(s.level) + s.progress <= s.score
  }

  /**
    One frame adds exactly delta * ScorePerMs to the score. If the accrued progress
    reaches the threshold, however far it overshoots, the level rises by exactly
    one, progress restarts at zero and the threshold grows by ThresholdGrowth; otherwise
    level and threshold stay and progress grows like the score.
   */
  lemma FrameLevelsUpAtMostOnce(s: LevelState, delta: real)
    requires Consistent(s)
    ensures Frame(s, delta).score == s.score + delta * ScorePerMs
    ensures Crosses(s, delta) ==>
              Frame(s, delta).level == s.level + 1 &&
              Frame(s, delta).progress == 0.0 &&
              Frame(s, delta).threshold == s.threshold * ThresholdGrowth &&
              Frame(s, delta).threshold > s.threshold
    ensures !Crosses(s, delta) ==>
              Frame(s, delta).level == s.level &&
              Frame(s, delta).progress == s.progress + delta * ScorePerMs &&
              Frame(s, delta).threshold == s.threshold
  {
  }

  /** With non-negative elapsed time, score and progress never fall except by a level-up. */
  lemma FrameNeverDecreases(s: LevelState, delta: real)
    requires Consistent(s) && delta >= 0.0
    ensures Frame(s, delta).score >= s.score
    ensures Frame(s, delta).level >= s.level
    ensures Frame(s, delta).threshold >= s.threshold
    ensures !Crosses(s, delta) ==> Frame(s, delta).progress >= s.progress
  {
  }

  lemma FrameKeepsEarned(s: LevelState, delta: real)
    requires Consistent(s) && Earned(s) && delta >= 0.0
    ensures Earned(Frame(s, delta))
  {
  }

  /**
    The thresholds of levels 1 .. level-1 add up to five times the growth of the
    threshold since level 1, so reaching `level` takes that much score.
   */
  lemma {:induction false} ThresholdsBelowClosedForm(level: int)
    requires level >= 1
    ensures ThresholdsBelow(level) == 5.0 * (ThresholdAt(level) - FirstThreshold)
  {
    if level > 1 {
      ThresholdsBelowClosedForm(level - 1);
    }
  }

  /** Consequently, a session at `level` has scored at least 5 * (threshold - FirstThreshold). */
  lemma ScoreBoundsLevel(s: LevelState)
    requires Consistent(s) && Earned(s)
    ensures s.score >= 5.0 * (s.threshold - FirstThreshold)
  {
    ThresholdsBelowClosedForm(s.level);
  }
}
