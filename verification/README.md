# GuessingGame in Dafny

A model of the command-line number-guessing game in `src/main.rs`. One run of the
game starts from the saved `GameState`, or from a zero state when there is no save
file. The player then enters lines until one holds the secret number. Lines that do
not parse as a `u8` are skipped and not counted. Every other line is counted and
reported as too small, too big or the win. At the end, `process_high_score` decides
whether the run's guess count becomes the new high score (fewer is better, and 0
means "no score yet"), and the game count goes up by one.

The modules follow the pieces of `main.rs`:

- `Primitives` (primitives.dfy): `u8` and `u32` as subset types of `int`, `Option`,
  and Rust's `Ordering` with `cmp` on integers.
- `Arbiter` (arbiter.dfy): `process_high_score` as a pure function. It returns the
  score to keep and the kind of message printed (`FirstScore`, `NewRecord`, `Tied`,
  `Missed`).
- `Parse` (parse.dfy): `line.trim().parse::<u8>()`. Trimming removes Unicode white
  space at both ends. Parsing accepts an optional `+` and then one or more ASCII
  digits whose value is at most 255; leading zeros are allowed, and `-` is rejected
  for an unsigned type.
- `Guessing` (guessing.dfy): the guessing loop as a method with a `while` loop over
  the input lines. Each line arrives as what the parser made of it. The method
  returns the guess counter and the message printed for each guess.
- `Session` (session.dfy): `GameState`, the default branch of `init_game_state`, the
  new state built after a run, a whole run of `main` without its I/O, and the state
  after a series of runs.

Each input line is given as a string. `Session.Readings` applies the parser to every
line, and the loop reads one line's result per iteration. Parsing is a pure function
of the line, so parsing all lines up front yields the same values the loop would
compute one at a time.

## Model

| member | source | states |
|---|---|---|
| `Arbiter.ProcessHighScore` | src/main.rs:67-87 | The kept score is always one of the two arguments. With no stored score (0), it is the new score. Otherwise it is the smaller of the two, so a tie or a worse run keeps the old score. |
| `Arbiter.OutcomeReportsChange` | src/main.rs:68-85 | The stored score is replaced exactly when the run beats it (no score yet, or fewer guesses), and the message is then `FirstScore` or `NewRecord`. `FirstScore` appears exactly when there was no score. `Tied` means equal to a stored score and `Missed` means more guesses than it; in both cases the old score stays. |
| `Arbiter.KeepsFewestGuesses` | src/main.rs:67-87 | For a run of at least one guess, the kept score is between 1 and the run's count. It never exceeds a stored nonzero score, and it is one of the two inputs. |
| `Arbiter.ArbitrationIsIdempotent` | src/main.rs:67-87 | A property of the model, not something the program does (it never arbitrates a run twice): the kept score is a fixed point. Arbitrating the same count against it keeps it, reporting `Tied`, or `Missed` when the old score was kept. |
| `Primitives.Compare` | src/main.rs:43-45 | `cmp` gives exactly one of `Less`, `Equal` and `Greater`, each exactly when `<`, `==` or `>` holds. |
| `Parse.IsWhitespace` | src/main.rs:36 | `char::is_whitespace` is the Unicode White_Space set. No white space character is a digit, `+` or `-`, so trimming never eats into a numeral. |
| `Parse.TrimStart` | src/main.rs:36 | `trim_start` never lengthens the line. `TrimStartKeepsSuffix` says what it keeps. |
| `Parse.TrimEnd` | src/main.rs:36 | `trim_end` never lengthens the line. `TrimEndKeepsPrefix` says what it keeps. |
| `Parse.TrimStartKeepsSuffix` | src/main.rs:36 | Trimming the front keeps a suffix of the line that does not start with white space, and everything dropped is white space. |
| `Parse.TrimEndKeepsPrefix` | src/main.rs:36 | Trimming the back keeps a prefix that does not end with white space, and everything dropped is white space. |
| `Parse.Trim` | src/main.rs:36 | `trim` leaves no white space at either end of the line, and it gives the empty string exactly when the line is blank. |
| `Parse.TrimRemovesPadding` | src/main.rs:36 | Trimming a string padded with white space gives the string back, when the string has no white space at its ends. |
| `Parse.LeadingZerosIgnored` | src/main.rs:36 | Leading zeros do not change the value of a numeral. |
| `Parse.ParseU8` | src/main.rs:36 | Whatever `u8::from_str` accepts is a numeral of the value it returns: an optional `+`, some leading zeros and the value's decimal digits. `ParseU8OfNumeral` gives the converse, and `ParseGuessRejects` names the rejected inputs. |
| `Parse.SignedDigitsAreNumeral` | src/main.rs:36 | Any nonempty run of ASCII digits, with or without a leading `+`, is such a numeral of the digits' value. |
| `Parse.ParseGuess` | src/main.rs:36 | An input line the guessing loop accepts is, once trimmed, a numeral of the returned guess. Together with `ParseGuessOfNumeral`, the accepted lines are exactly the numerals up to 255 with white space around them. |
| `Parse.ParseU8OfNumeral` | src/main.rs:36 | A numeral with any leading zeros and an optional `+` parses to its value exactly when that value is at most 255. Otherwise it is rejected. |
| `Parse.ParseGuessOfNumeral` | src/main.rs:32-37 | The same holds for a whole input line: white space around the numeral, including the newline `read_line` keeps, makes no difference. |
| `Parse.ParseGuessRejects` | src/main.rs:36-39 | These lines are rejected: a blank line, a lone `+`, and a line whose trimmed text has a character that is neither a digit nor a leading `+` (a letter, a `-`, inner white space). |
| `Guessing.Guesses` | src/main.rs:36-41 | There are never more guesses than lines. `GuessesComeFromLines` shows that every guess is a parsed line, and `SkippedLinesDoNotCount` that unparsed lines add none. |
| `Guessing.GuessesComeFromLines` | src/main.rs:36-41 | Every counted guess is the parsed value of one of the input lines. |
| `Guessing.Verdicts` | src/main.rs:43-50 | One message per guess. `VerdictsClassifyEach` says which message each guess gets. |
| `Guessing.FirstWin` | src/main.rs:46-48 | The line on which the round ends holds a correct guess. `NoWinBeforeFirst` and `FirstWinIsUnique` show it is the first such line. |
| `Guessing.PlayRound` | src/main.rs:26-51 | The messages are one per parsed guess, from the first line up to and including the first correct guess, each classifying that guess. The counter equals the number of messages and is at least 1. The last message is the win and none before it is. |
| `Guessing.VerdictsClassifyEach` | src/main.rs:43-50 | The message for each guess is the comparison of that guess with the secret. |
| `Guessing.NoWinBeforeFirst` | src/main.rs:46-48 | No line before the one where the round ends holds a correct guess, so the loop never stops early. |
| `Guessing.FirstWinIsUnique` | src/main.rs:46-48 | The round ends on the one line that holds a correct guess with no correct guess before it. |
| `Guessing.SkippedLinesDoNotCount` | src/main.rs:36-39 | Removing a line that did not parse leaves the sequence of guesses unchanged. |
| `Guessing.SkippedLineDoesNotChangeRound` | src/main.rs:36-41 | Removing a line that did not parse from the input leaves the round unchanged. It is still won, with the same guesses, so with the same counter and messages. |
| `Session.InitGameState` | src/main.rs:89-97 | Without a save file the state is all zero. Otherwise it is the decoded saved state. |
| `Session.NextState` | src/main.rs:53-58 | The game count goes up by exactly one, and the high score is the arbiter's choice between the stored score and the run's count. For a run of at least one guess, the new high score is set, at most the run's count, and never above a stored nonzero score. |
| `Session.Readings` | src/main.rs:32-39 | There is exactly one reading per input line. Each reading is that line's `ParseGuess`, so `RejectedLineDoesNotCount` carries the parser's rejections into the round. |
| `Session.RejectedLineDoesNotCount` | src/main.rs:32-41 | A line that `trim().parse::<u8>()` rejects, such as a blank line, a word, a negative number or a number above 255, changes nothing. With it taken out, the round is still won, with the same guesses, so with the same count, messages and new state. |
| `Session.PlaySession` | src/main.rs:16-58 | One run from the saved state and the input lines. It returns the round's messages and counter as `PlayRound` defines them, the state built from the prior state and that counter, and the arbiter's message for them. |
| `Session.Replay` | src/main.rs:53-58 | A series of runs, each saving its state and the next one loading it: the game count grows by exactly the number of runs. |
| `Session.ReplayKeepsFewest` | src/main.rs:53-58 | After a series of runs, each won in at least one guess, the high score is the fewest guesses among the runs and the stored score, leaving out a stored 0. |
| `Session.HistoryFromNoSave` | src/main.rs:93-96 | Starting with no save file, after n runs the saved state is n games, with high score 0 when n is 0 and otherwise the fewest guesses of any run. |
| `Session.HighScoreOnlyImproves` | src/main.rs:67-87 | Over any series of runs, a stored high score never rises and never returns to 0. The high score is always the stored one or the count of some run. |
| `Session.Scenarios` | src/main.rs:53-58 | Worked examples: a first run of 7 guesses from no save gives state (1, 7) and `FirstScore`. From (3, 5), a run of 5 gives (4, 5) and `Tied`, 9 gives (4, 5) and `Missed`, and 2 gives (4, 2) and `NewRecord`. |

## Left out

- Console I/O is not modelled: the `println!` messages, `read_line` and the final "press enter" `read_exact`. Each message is modelled only by its kind: an `Ordering` per guess and an `Outcome` from the arbiter. The input is a finite sequence of lines.
- The random choice of the secret in 1..=100 is not modelled. The secret is a parameter of type `u8`.
- Save-file I/O is not modelled: the existence check, `save_game_state`, `load_game_state` and `bincode` encoding. The decoded save-file content is an `Option<GameState>` parameter, `None` for "no file", so there is no save/load round trip to state.
- The `.expect(...)` panics on I/O and decoding failures are not modelled. They end the process and are not part of the game's logic.
- Guessing.PlayRound: requires that some line holds the secret. The source asks for input forever; at end of input `read_line` returns an empty line that never parses, so the source loops without end.
- Guessing.PlayRound: requires the number of guesses to fit in `u32`. In the source `count_guesses += 1` would panic in a debug build or wrap in a release build beyond that.
- Session.NextState: requires `game_count` below the `u32` maximum, because `game_count + 1` overflows there. The same sum is printed at src/main.rs:18.
- Session.PlaySession: takes both of the preconditions above.
- `process_high_score` with a stored nonzero score and a new score of 0 would replace the score with the "no score" 0. The guessing loop never produces a count of 0, so the lemmas about the high score assume every run took at least one guess.
