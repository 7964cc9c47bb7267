/**
 * One run of the game as `main` strings it together: take the saved state (or a
 * fresh one), play a round, arbitrate the high score and build the state to save.
 */
module Session {
  import opened Primitives
  import opened Arbiter
  import opened Parse
  import opened Guessing

  /** `GameState`: the two counters kept in the save file. A high score of 0 means none yet. */
  datatype GameState = GameState(gameCount: u32, highScore: u32)

  /**
   * `init_game_state`. `saved` is the decoded content of the save file, or `None`
   * when the file does not exist; without one the state starts at zero.
   */
  function InitGameState(saved: Option<GameState>): (s: GameState)
    ensures saved.None? ==> s.gameCount == 0 && s.highScore == 0
    ensures saved.Some? ==> s == saved.value
  {
    match saved
    case None => GameState(0, 0)
    case Some(state) => state
  }

  /**
   * The state saved at the end of a run (lines 53-58 of `main`): one more game
   * played, and the high score the arbiter keeps. `game_count + 1` is a `u32`
   * addition, so the prior count must be below the maximum.
   */
  function NextState(prior: GameState, guesses: u32): (next: GameState)
    requires prior.gameCount < U32_MAX
    ensures next.gameCount == prior.gameCount + 1
    ensures next.highScore == prior.highScore || next.highScore == guesses
    ensures guesses >= 1 ==> 1 <= next.highScore <= guesses
    ensures guesses >= 1 && prior.highScore != 0 ==> next.highScore <= prior.highScore
  {
    GameState(prior.gameCount + 1, ProcessHighScore(prior.highScore, guesses).score)
  }

  /** What `trim().parse::<u8>()` makes of each input line. */
  function Readings(lines: seq<string>): (rs: seq<Option<u8>>)
    ensures |rs| == |lines|
  {
    seq(|lines|, i requires 0 <= i < |lines| => ParseGuess(lines[i]))
  }

  /** The readings of a stretch of input are the readings of its pieces, in order. */
  lemma ReadingsOfPieces(before: seq<string>, after: seq<string>)
    ensures Readings(before + after) == Readings(before) + Readings(after)
  {
  }

  /**
   * An input line that `trim().parse::<u8>()` rejects (a blank line, a word, a
   * negative number, a number above 255) changes nothing: with it taken out, the game
   * is still won, with the same guesses, so `PlaySession` returns the same count,
   * messages and state.
   */
  lemma RejectedLineDoesNotCount(before: seq<string>, line: string, after: seq<string>, secret: u8)
    requires ParseGuess(line) == None
    requires HasWin(Readings(before + after), secret)
    ensures HasWin(Readings(before + [line] + after), secret)
    ensures Guesses(Played(Readings(before + [line] + after), secret))
      == Guesses(Played(Readings(before + after), secret))
  {
    ReadingsOfPieces(before, after);
    ReadingsOfPieces(before + [line], after);
    ReadingsOfPieces(before, [line]);
    assert Readings([line]) == [None];
    SkippedLineDoesNotChangeRound(Readings(before), Readings(after), secret);
  }

  /**
   * Lines 16-58 of `main`, without the input and output: start from the saved state,
   * play a round against `secret` on the input `lines`, and return the state to save,
   * the arbiter's message, the number of guesses and the messages printed for them.
   * By `NextState`'s contract the saved high score is then set, and at most this
   * round's count.
   */
  method PlaySession(saved: Option<GameState>, lines: seq<string>, secret: u8)
    returns (next: GameState, outcome: Outcome, countGuesses: u32, verdicts: seq<Ordering>)
    requires InitGameState(saved).gameCount < U32_MAX
    requires HasWin(Readings(lines), secret)
    requires |Guesses(Played(Readings(lines), secret))| <= U32_MAX
    ensures verdicts == Verdicts(Guesses(Played(Readings(lines), secret)), secret)
    ensures countGuesses == |verdicts| >= 1
    ensures next == NextState(InitGameState(saved), countGuesses)
    ensures outcome == ProcessHighScore(InitGameState(saved).highScore, countGuesses).outcome
  {
    var saveState := InitGameState(saved);
    countGuesses, verdicts := PlayRound(Readings(lines), secret);
    outcome := ProcessHighScore(saveState.highScore, countGuesses).outcome;
    next := NextState(saveState, countGuesses);
  }

  /** The state after a series of runs taking `sessions[0]`, `sessions[1]`, ... guesses. */
  function Replay(s: GameState, sessions: seq<u32>): (t: GameState)
    requires s.gameCount + |sessions| <= U32_MAX
    ensures t.gameCount == s.gameCount + |sessions|
    decreases |sessions|
  {
    if sessions == [] then s else Replay(NextState(s, sessions[0]), sessions[1..])
  }

  /** The smallest element of a non-empty sequence. */
  function MinOf(xs: seq<int>): (m: int)
    requires xs != []
    ensures m in xs
    ensures forall x | x in xs :: m <= x
  {
    if |xs| == 1 then xs[0]
    else
      var rest := MinOf(xs[1..]);
      assert forall x | x in xs[1..] :: rest <= x;
      assert xs == [xs[0]] + xs[1..];
      Min(xs[0], rest)
  }

  /**
   * The high score after a series of runs, each won in at least one guess: the fewest
   * guesses among the stored score (unless it is the "none yet" 0) and all the runs.
   */
  lemma {:induction false} ReplayKeepsFewest(s: GameState, sessions: seq<u32>)
    requires s.gameCount + |sessions| <= U32_MAX
    requires forall j | 0 <= j < |sessions| :: sessions[j] >= 1
    ensures sessions == [] ==> Replay(s, sessions).highScore == s.highScore
    ensures sessions != [] && s.highScore == 0 ==> Replay(s, sessions).highScore == MinOf(sessions)
    ensures sessions != [] && s.highScore != 0 ==> Replay(s, sessions).highScore == Min(s.highScore, MinOf(sessions))
    decreases |sessions|
  {
    if sessions != [] {
      var t := NextState(s, sessions[0]);
      ReplayKeepsFewest(t, sessions[1..]);
    }
  }

  /**
   * From no save file on, the saved state counts every run, and its high score is 0
   * before the first run and afterwards the fewest guesses any run took.
   */
  lemma HistoryFromNoSave(sessions: seq<u32>)
    requires |sessions| <= U32_MAX
    requires forall j | 0 <= j < |sessions| :: sessions[j] >= 1
    ensures Replay(InitGameState(None), sessions)
      == GameState(|sessions|, if sessions == [] then 0 else MinOf(sessions))
  {
    ReplayKeepsFewest(InitGameState(None), sessions);
  }

  /**
   * The saved high score only ever improves: once set it never rises and never goes
   * back to "none yet", and it is always a number of guesses some run took.
   */
  lemma HighScoreOnlyImproves(s: GameState, sessions: seq<u32>)
    requires s.gameCount + |sessions| <= U32_MAX
    requires forall j | 0 <= j < |sessions| :: sessions[j] >= 1
    ensures s.highScore != 0 ==> 1 <= Replay(s, sessions).highScore <= s.highScore
    ensures Replay(s, sessions).highScore == s.highScore || Replay(s, sessions).highScore in sessions
  {
    ReplayKeepsFewest(s, sessions);
  }

  /** Runs worked through by hand: a first run, a tie, a miss and a new record. */
  lemma Scenarios()
    ensures NextState(InitGameState(None), 7) == GameState(1, 7)
    ensures ProcessHighScore(InitGameState(None).highScore, 7).outcome == FirstScore
    ensures NextState(GameState(3, 5), 5) == GameState(4, 5)
    ensures ProcessHighScore(5, 5).outcome == Tied
    ensures NextState(GameState(3, 5), 9) == GameState(4, 5)
    ensures ProcessHighScore(5, 9).outcome == Missed
    ensures NextState(GameState(3, 5), 2) == GameState(4, 2)
    ensures ProcessHighScore(5, 2).outcome == NewRecord
  {
  }
}
