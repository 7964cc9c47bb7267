/** The high-score arbiter: `process_high_score` decides which score is kept after a session. */
module Arbiter {
  import opened Primitives

  /** Which of the four messages `process_high_score` prints. */
  datatype Outcome = FirstScore | NewRecord | Tied | Missed

  /** The score to keep, and the message that announces it. */
  datatype Arbitration = Arbitration(score: u32, outcome: Outcome)

  /**
   * `process_high_score(old_score, new_score)`. A stored score of 0 means that no
   * session has been won yet; otherwise fewer guesses is better.
   */
  function ProcessHighScore(oldScore: u32, newScore: u32): (r: Arbitration)
    ensures r.score == oldScore || r.score == newScore
    ensures oldScore == 0 ==> r.score == newScore
    ensures oldScore != 0 ==> r.score == Min(oldScore, newScore)
  {
    if oldScore == 0 then
      Arbitration(newScore, FirstScore)
    else
      match Compare(newScore, oldScore)
      case Less => Arbitration(newScore, NewRecord)
      case Equal => Arbitration(oldScore, Tied)
      case Greater => Arbitration(oldScore, Missed)
  }

  /** The new score beats the stored one: there is none yet, or it took fewer guesses. */
  predicate Beats(newScore: u32, oldScore: u32) {
    oldScore == 0 || newScore < oldScore
  }

  /**
   * The message tells the player what happened to the stored score: it is replaced
   * exactly when the session beats it (first score or record), and otherwise the
   * message says whether the session equalled it or fell short of it.
   */
  lemma OutcomeReportsChange(oldScore: u32, newScore: u32)
    ensures var r := ProcessHighScore(oldScore, newScore);
      && (r.outcome == FirstScore || r.outcome == NewRecord <==> Beats(newScore, oldScore))
      && (r.outcome == FirstScore <==> oldScore == 0)
      && (Beats(newScore, oldScore) ==> r.score == newScore)
      && (!Beats(newScore, oldScore) ==> r.score == oldScore)
      && (r.outcome == Tied <==> oldScore != 0 && newScore == oldScore)
      && (r.outcome == Missed <==> oldScore != 0 && newScore > oldScore)
  {
  }

  /**
   * A session always takes at least one guess. For such a session the kept score is
   * the fewest guesses among the stored score (when there is one) and this session:
   * it is never the "no score" sentinel and it never rises.
   */
  lemma KeepsFewestGuesses(oldScore: u32, newScore: u32)
    requires newScore >= 1
    ensures var r := ProcessHighScore(oldScore, newScore);
      && 1 <= r.score <= newScore
      && (oldScore != 0 ==> r.score <= oldScore)
      && (r.score == oldScore || r.score == newScore)
  {
  }

  /**
   * Arbitrating the same session again changes nothing: the kept score is a fixed
   * point, and a second look reports a tie.
   */
  lemma ArbitrationIsIdempotent(oldScore: u32, newScore: u32)
    requires newScore >= 1
    ensures var r := ProcessHighScore(oldScore, newScore);
      && ProcessHighScore(r.score, newScore).score == r.score
      && ProcessHighScore(r.score, newScore).outcome == (if r.score == newScore then Tied else Missed)
  {
  }
}
