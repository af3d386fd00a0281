/**
  The rule deciding which typed scores a player may write: a miss (zero), or a
  scoring turn of at least 350 points that lands on a multiple of 50.
 */
module Validator {

  /** The smallest score a scoring turn may record. */
  const MinimumScore: int := 350

  /** Scores move in steps of this size. */
  const ScoreIncrement: int := 50

  /** Whether a typed score may be written to the table. */
  predicate IsValidScore(score: int) {
    score == 0 || (score >= MinimumScore && score % ScoreIncrement == 0)
  }

  /** The k-th scoring value above the minimum: 350, 400, 450, ... */
  function Points(k: nat): (p: int)
    ensures p >= MinimumScore
  {
    MinimumScore + ScoreIncrement * k
  }

  /**
    An independent description of the legal scores: zero, or one of the values on
    the 50-point ladder that starts at 350.
   */
  lemma ValidScoresAreTheLadder(score: int)
    ensures IsValidScore(score) <==> score == 0 || exists k: nat :: Points(k) == score
  {
    if score >= MinimumScore && score % ScoreIncrement == 0 {
      var k: nat := (score - MinimumScore) / ScoreIncrement;
      assert Points(k) == score;
    }
    if exists k: nat :: Points(k) == score {
      var k: nat :| Points(k) == score;
      assert score == ScoreIncrement * (7 + k);
      assert score % ScoreIncrement == 0;
    }
  }

  /** No negative score is ever legal, in particular not the -500 penalty. */
  lemma NegativeScoresAreInvalid(score: int)
    requires score < 0
    ensures !IsValidScore(score)
    ensures !exists k: nat :: Points(k) == score
  {
    ValidScoresAreTheLadder(score);
  }

  /** The sample values the rule is meant to accept and refuse. */
  lemma ValidatorSamples()
    ensures IsValidScore(0) && IsValidScore(350) && IsValidScore(400)
    ensures !IsValidScore(300) && !IsValidScore(375) && !IsValidScore(-50)
    ensures !IsValidScore(-500)
  {
  }
}
