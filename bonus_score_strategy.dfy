/** The bonus scoring strategy: a stored score is the base score plus an optional bonus. */
module BonusScoreStrategy {
  import opened Wrappers

  /** `calculateScore`: a missing bonus (or a zero one) adds nothing. */
  function CalculateScore(baseScore: int, bonus: Option<int>): (r: int)
    ensures bonus.Some? ==> r == baseScore + bonus.value
    ensures bonus.None? || bonus == Some(0) ==> r == baseScore
    ensures bonus.None? || bonus.value >= 0 ==> r >= baseScore
  {
    baseScore + (if bonus.Some? then bonus.value else 0)
  }

  /** An absent bonus and a bonus of 0 give the same score. */
  lemma AbsentBonusIsZero(baseScore: int)
    ensures CalculateScore(baseScore, None) == CalculateScore(baseScore, Some(0))
  {
  }
}
