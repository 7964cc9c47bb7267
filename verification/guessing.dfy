/**
 * The guessing loop of `main`: read lines until a guess equals the secret number.
 * The loop sees each line as what `trim().parse::<u8>()` made of it (see module
 * Parse): `Some(g)` for a guess `g`, `None` for a line that does not parse.
 */
module Guessing {
  import opened Primitives

  /** The guesses the player made: the lines that parsed, in order. */
  function Guesses(readings: seq<Option<u8>>): (gs: seq<u8>)
    ensures |gs| <= |readings|
  {
    if readings == [] then []
    else
      var earlier := Guesses(readings[..|readings| - 1]);
      match readings[|readings| - 1]
      case None => earlier
      case Some(g) => earlier + [g]
  }

  /** The messages the loop prints for a run of guesses: too small, too big, or the win. */
  function Verdicts(gs: seq<u8>, secret: u8): (vs: seq<Ordering>)
    ensures |vs| == |gs|
  {
    if gs == [] then [] else Verdicts(gs[..|gs| - 1], secret) + [Compare(gs[|gs| - 1], secret)]
  }

  /** Every guess is the reading of one of the lines. */
  lemma {:induction false} GuessesComeFromLines(readings: seq<Option<u8>>, j: nat)
    requires j < |Guesses(readings)|
    ensures Some(Guesses(readings)[j]) in readings
  {
    var front := readings[..|readings| - 1];
    if j < |Guesses(front)| {
      GuessesComeFromLines(front, j);
      assert forall r | r in front :: r in readings;
    } else {
      assert readings[|readings| - 1] in readings;
    }
  }

  /** Each guess gets the message for how it compares with the secret. */
  lemma {:induction false} VerdictsClassifyEach(gs: seq<u8>, secret: u8, j: nat)
    requires j < |gs|
    ensures Verdicts(gs, secret)[j] == Compare(gs[j], secret)
  {
    if j < |gs| - 1 {
      VerdictsClassifyEach(gs[..|gs| - 1], secret, j);
    }
  }

  /** Some line of the input is a correct guess. */
  predicate HasWin(readings: seq<Option<u8>>, secret: u8) {
    Some(secret) in readings
  }

  /** The line on which the game is won: the first correct guess. */
  function FirstWin(readings: seq<Option<u8>>, secret: u8): (k: nat)
    requires HasWin(readings, secret)
    ensures k < |readings| && readings[k] == Some(secret)
  {
    if readings[0] == Some(secret) then 0
    else
      assert readings == [readings[0]] + readings[1..];
      1 + FirstWin(readings[1..], secret)
  }

  /** No line before the first win is a correct guess. */
  lemma {:induction false} NoWinBeforeFirst(readings: seq<Option<u8>>, secret: u8, j: nat)
    requires HasWin(readings, secret) && j < FirstWin(readings, secret)
    ensures readings[j] != Some(secret)
  {
    if j > 0 {
      assert readings == [readings[0]] + readings[1..];
      NoWinBeforeFirst(readings[1..], secret, j - 1);
    }
  }

  /** A longer stretch of input holds at least as many guesses. */
  lemma {:induction false} GuessesGrow(readings: seq<Option<u8>>, i: nat, j: nat)
    requires i <= j <= |readings|
    ensures |Guesses(readings[..i])| <= |Guesses(readings[..j])|
  {
    if i < j {
      assert readings[..j][..j - 1] == readings[..j - 1];
      GuessesGrow(readings, i, j - 1);
    }
  }

  /** Reading one more line adds its guess, if it parsed, to the guesses. */
  lemma GuessesStep(readings: seq<Option<u8>>, i: nat)
    requires i < |readings|
    ensures readings[i].None? ==> Guesses(readings[..i + 1]) == Guesses(readings[..i])
    ensures readings[i].Some? ==> Guesses(readings[..i + 1]) == Guesses(readings[..i]) + [readings[i].value]
  {
    assert readings[..i + 1][..i] == readings[..i];
  }

  /** One more guess adds its message to the messages. */
  lemma VerdictsStep(gs: seq<u8>, g: u8, secret: u8)
    ensures Verdicts(gs + [g], secret) == Verdicts(gs, secret) + [Compare(g, secret)]
  {
    assert (gs + [g])[..|gs|] == gs;
  }

  /** The input up to and including the winning line. */
  function Played(readings: seq<Option<u8>>, secret: u8): seq<Option<u8>>
    requires HasWin(readings, secret)
  {
    readings[..FirstWin(readings, secret) + 1]
  }

  /**
   * Lines 26-51 of `main`. A line that does not parse is skipped without being
   * counted; each guess is counted and then compared with the secret; the loop ends
   * at the first guess equal to the secret. The result is the number of guesses and
   * the messages printed for them, one per guess: every one "too small" or "too big"
   * except the last, which is the win.
   */
  method PlayRound(readings: seq<Option<u8>>, secret: u8) returns (countGuesses: u32, verdicts: seq<Ordering>)
    requires HasWin(readings, secret)
    requires |Guesses(Played(readings, secret))| <= U32_MAX
    ensures verdicts == Verdicts(Guesses(Played(readings, secret)), secret)
    ensures countGuesses == |verdicts| >= 1
    ensures verdicts[countGuesses - 1] == Equal
    ensures Equal !in verdicts[..countGuesses - 1]
  {
    ghost var k := FirstWin(readings, secret);
    ghost var gs: seq<u8> := [];
    assert Played(readings, secret) == readings[..k + 1];
    var i := 0;
    countGuesses := 0;
    verdicts := [];
    while true
      invariant 0 <= i <= k
      invariant gs == Guesses(readings[..i])
      invariant countGuesses == |gs|
      invariant verdicts == Verdicts(gs, secret)
      invariant Equal !in verdicts
      decreases k - i
    {
      var guess := readings[i];
      GuessesStep(readings, i);
      assert guess != Some(secret) ==> i < k;
      i := i + 1;
      if guess.None? {
        continue;
      }
      GuessesGrow(readings, i, k + 1);
      assert |gs| + 1 <= U32_MAX;
      countGuesses := countGuesses + 1;
      var verdict := Compare(guess.value, secret);
      VerdictsStep(gs, guess.value, secret);
      gs := gs + [guess.value];
      verdicts := verdicts + [verdict];
      if verdict == Equal {
        assert verdicts[..countGuesses - 1] == verdicts[..|verdicts| - 1];
        if i - 1 < k {
          NoWinBeforeFirst(readings, secret, i - 1);
        }
        assert i == k + 1;
        assert gs == Guesses(Played(readings, secret));
        break;
      }
    }
  }

  /**
   * A line that does not parse neither counts nor prints anything: taking it out of
   * the input leaves the guesses, and so the count and the messages, unchanged.
   */
  lemma {:induction false} SkippedLinesDoNotCount(before: seq<Option<u8>>, after: seq<Option<u8>>)
    ensures Guesses(before + [None] + after) == Guesses(before + after)
    decreases |after|
  {
    if after == [] {
      assert (before + [None])[..|before|] == before;
      assert before + after == before;
      assert before + [None] + after == before + [None];
    } else {
      var longer := before + [None] + after;
      var shorter := before + after;
      var front := after[..|after| - 1];
      assert longer[..|longer| - 1] == before + [None] + front;
      assert shorter[..|shorter| - 1] == before + front;
      SkippedLinesDoNotCount(before, front);
    }
  }

  /** The first win is the one correct guess with no correct guess before it. */
  lemma {:induction false} FirstWinIsUnique(readings: seq<Option<u8>>, secret: u8, j: nat)
    requires j < |readings| && readings[j] == Some(secret)
    requires forall i | 0 <= i < j :: readings[i] != Some(secret)
    ensures HasWin(readings, secret) && FirstWin(readings, secret) == j
  {
    assert readings[j] in readings;
    if j > 0 {
      assert readings == [readings[0]] + readings[1..];
      FirstWinIsUnique(readings[1..], secret, j - 1);
    }
  }

  /** Where the game is won once one line that did not parse is put back into the input. */
  lemma {:induction false} FirstWinAfterSkippedLine(before: seq<Option<u8>>, after: seq<Option<u8>>, secret: u8)
    requires HasWin(before + after, secret)
    ensures HasWin(before + [None] + after, secret)
    ensures var k := FirstWin(before + after, secret);
      FirstWin(before + [None] + after, secret) == if k < |before| then k else k + 1
  {
    var shorter := before + after;
    var longer := before + [None] + after;
    var k := FirstWin(shorter, secret);
    var j := if k < |before| then k else k + 1;
    forall i | 0 <= i < j
      ensures longer[i] != Some(secret)
    {
      if i < |before| {
        assert longer[i] == shorter[i];
        NoWinBeforeFirst(shorter, secret, i);
      } else if i > |before| {
        assert longer[i] == shorter[i - 1];
        NoWinBeforeFirst(shorter, secret, i - 1);
      }
    }
    assert longer[j] == shorter[k];
    FirstWinIsUnique(longer, secret, j);
  }

  /**
   * Lines that do not parse make no difference to the round: with one taken out of the
   * input, the game is still won, with the same guesses and so the same count and messages.
   */
  lemma SkippedLineDoesNotChangeRound(before: seq<Option<u8>>, after: seq<Option<u8>>, secret: u8)
    requires HasWin(before + after, secret)
    ensures HasWin(before + [None] + after, secret)
    ensures Guesses(Played(before + [None] + after, secret)) == Guesses(Played(before + after, secret))
  {
    var shorter := before + after;
    var longer := before + [None] + after;
    var k := FirstWin(shorter, secret);
    FirstWinAfterSkippedLine(before, after, secret);
    if k < |before| {
      assert longer[..k + 1] == shorter[..k + 1];
    } else {
      var rest := after[..k + 1 - |before|];
      assert longer[..k + 2] == before + [None] + rest;
      assert shorter[..k + 1] == before + rest;
      SkippedLinesDoNotCount(before, rest);
    }
  }
}
