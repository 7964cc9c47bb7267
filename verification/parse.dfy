/**
 * Reading one input line as a guess: `guess.trim().parse::<u8>()`.
 * `str::trim` removes Unicode white space at both ends; `u8::from_str` accepts an
 * optional `+` followed by one or more ASCII decimal digits whose value fits in a `u8`.
 */
module Parse {
  import opened Primitives

  /** `char::is_whitespace`: the Unicode White_Space property. No digit and no sign is white space. */
  predicate IsWhitespace(c: char)
    ensures IsWhitespace(c) ==> !IsDigit(c) && c != '+' && c != '-'
  {
    || c == ' '
    || '\t' <= c <= '\r'
    || c == '\U{0085}' || c == '\U{00A0}' || c == '\U{1680}'
    || '\U{2000}' <= c <= '\U{200A}'
    || c == '\U{2028}' || c == '\U{2029}' || c == '\U{202F}' || c == '\U{205F}' || c == '\U{3000}'
  }

  predicate AllWhitespace(s: string) {
    forall i | 0 <= i < |s| :: IsWhitespace(s[i])
  }

  /** `str::trim_start`: drops the white space at the front. */
  function TrimStart(s: string): (r: string)
    ensures |r| <= |s|
  {
    if s != [] && IsWhitespace(s[0]) then TrimStart(s[1..]) else s
  }

  /** `str::trim_end`: drops the white space at the back. */
  function TrimEnd(s: string): (r: string)
    ensures |r| <= |s|
  {
    if s != [] && IsWhitespace(s[|s| - 1]) then TrimEnd(s[..|s| - 1]) else s
  }

  /**
   * `str::trim`: it leaves a piece of the line with no white space at either end, and
   * it is empty only for a blank line.
   */
  function Trim(s: string): (r: string)
    ensures r == [] || (!IsWhitespace(r[0]) && !IsWhitespace(r[|r| - 1]))
    ensures r == [] <==> AllWhitespace(s)
  {
    TrimStartKeepsSuffix(s);
    TrimEndKeepsPrefix(TrimStart(s));
    TrimEnd(TrimStart(s))
  }

  /** `TrimStart` keeps the longest suffix that does not start with white space. */
  lemma {:induction false} TrimStartKeepsSuffix(s: string)
    ensures var r := TrimStart(s);
      && r == s[|s| - |r|..]
      && AllWhitespace(s[..|s| - |r|])
      && (r == [] || !IsWhitespace(r[0]))
  {
    if s != [] && IsWhitespace(s[0]) {
      var r := TrimStart(s[1..]);
      TrimStartKeepsSuffix(s[1..]);
      assert s[..|s| - |r|] == [s[0]] + s[1..][..|s| - 1 - |r|];
    }
  }

  /** `TrimEnd` keeps the longest prefix that does not end with white space. */
  lemma {:induction false} TrimEndKeepsPrefix(s: string)
    ensures var r := TrimEnd(s);
      && r == s[..|r|]
      && AllWhitespace(s[|r|..])
      && (r == [] || !IsWhitespace(r[|r| - 1]))
  {
    if s != [] && IsWhitespace(s[|s| - 1]) {
      var r := TrimEnd(s[..|s| - 1]);
      TrimEndKeepsPrefix(s[..|s| - 1]);
      assert s[|r|..] == s[..|s| - 1][|r|..] + [s[|s| - 1]];
    }
  }

  predicate IsDigit(c: char) {
    '0' <= c <= '9'
  }

  predicate AllDigits(s: string) {
    forall i | 0 <= i < |s| :: IsDigit(s[i])
  }

  /** The value of a string of decimal digits, most significant first. */
  function DecimalValue(ds: string): nat
    requires AllDigits(ds)
  {
    if ds == [] then 0 else DecimalValue(ds[..|ds| - 1]) * 10 + (ds[|ds| - 1] as int - '0' as int)
  }

  /** The decimal numeral of `n`, without leading zeros. */
  function DecimalString(n: nat): (ds: string)
    ensures ds != [] && AllDigits(ds)
    ensures |ds| > 1 ==> ds[0] != '0'
    ensures DecimalValue(ds) == n
  {
    var last := [('0' as int + n % 10) as char];
    if n < 10 then
      last
    else
      var front := DecimalString(n / 10);
      assert (front + last)[..|front + last| - 1] == front;
      front + last
  }

  /** What is left of a numeral once an optional leading `+` is dropped. */
  function Unsigned(s: string): (ds: string)
    ensures |ds| <= |s|
  {
    if s != [] && s[0] == '+' then s[1..] else s
  }

  /**
   * `u8::from_str` (radix 10): the error cases are the empty string, a lone `+`,
   * any character that is not a digit (a `-` included), and a value above 255.
   * Whatever it accepts is a numeral of the value it returns: an optional `+`,
   * leading zeros and the value's decimal digits.
   */
  function ParseU8(s: string): (r: Option<u8>)
    ensures r.Some? ==> exists plus: bool, k: nat :: s == Numeral(plus, k, r.value)
  {
    var digits := Unsigned(s);
    if digits == [] || !AllDigits(digits) then None
    else if DecimalValue(digits) <= U8_MAX then
      SignedDigitsAreNumeral(s);
      Some(DecimalValue(digits))
    else None
  }

  /**
   * What one input line yields in the guessing loop: `line.trim().parse::<u8>()`.
   * A line it accepts is a numeral of the returned value, with white space around it.
   */
  function ParseGuess(line: string): (r: Option<u8>)
    ensures r.Some? ==> exists plus: bool, k: nat :: Trim(line) == Numeral(plus, k, r.value)
  {
    ParseU8(Trim(line))
  }

  /** White space in front of a string is dropped by `TrimStart`. */
  lemma {:induction false} TrimStartSkipsPadding(w: string, t: string)
    requires AllWhitespace(w)
    ensures TrimStart(w + t) == TrimStart(t)
  {
    if w == [] {
      assert w + t == t;
    } else {
      assert (w + t)[1..] == w[1..] + t;
      TrimStartSkipsPadding(w[1..], t);
    }
  }

  /** White space behind a string is dropped by `TrimEnd`. */
  lemma {:induction false} TrimEndSkipsPadding(t: string, w: string)
    requires AllWhitespace(w)
    ensures TrimEnd(t + w) == TrimEnd(t)
  {
    if w == [] {
      assert t + w == t;
    } else {
      assert (t + w)[..|t + w| - 1] == t + w[..|w| - 1];
      TrimEndSkipsPadding(t, w[..|w| - 1]);
    }
  }

  /** Trimming a padded string gives back the string, when it has no white space at its ends. */
  lemma TrimRemovesPadding(w1: string, s: string, w2: string)
    requires AllWhitespace(w1) && AllWhitespace(w2)
    requires s == [] || (!IsWhitespace(s[0]) && !IsWhitespace(s[|s| - 1]))
    ensures Trim(w1 + s + w2) == s
  {
    assert w1 + s + w2 == w1 + (s + w2);
    TrimStartSkipsPadding(w1, s + w2);
    if s == [] {
      assert s + w2 == w2 + [];
      TrimStartSkipsPadding(w2, []);
    } else {
      assert TrimStart(s + w2) == s + w2;
      TrimEndSkipsPadding(s, w2);
    }
  }

  /** `n` zeros. */
  function Zeros(n: nat): (z: string)
    ensures |z| == n && AllDigits(z)
    ensures forall i | 0 <= i < n :: z[i] == '0'
  {
    if n == 0 then [] else Zeros(n - 1) + ['0']
  }

  /** A string of zeros is worth nothing. */
  lemma {:induction false} ZerosAreWorthNothing(k: nat)
    ensures DecimalValue(Zeros(k)) == 0
  {
    if k > 0 {
      assert Zeros(k)[..k - 1] == Zeros(k - 1);
      ZerosAreWorthNothing(k - 1);
    }
  }

  /** Leading zeros do not change the value of a numeral. */
  lemma {:induction false} LeadingZerosIgnored(k: nat, ds: string)
    requires AllDigits(ds)
    ensures AllDigits(Zeros(k) + ds) && DecimalValue(Zeros(k) + ds) == DecimalValue(ds)
  {
    var z := Zeros(k);
    if ds == [] {
      assert z + ds == z;
      ZerosAreWorthNothing(k);
    } else {
      var front := ds[..|ds| - 1];
      assert (z + ds)[..|z + ds| - 1] == z + front;
      LeadingZerosIgnored(k, front);
    }
  }

  /** A numeral with an optional `+` and leading zeros. */
  function Numeral(plus: bool, k: nat, n: nat): (s: string)
    ensures s != [] && !IsWhitespace(s[0]) && !IsWhitespace(s[|s| - 1])
  {
    (if plus then "+" else "") + Zeros(k) + DecimalString(n)
  }

  /** A digit string without a leading zero is the numeral `DecimalString` gives for its value. */
  lemma {:induction false} CanonicalNumeral(ds: string)
    requires ds != [] && AllDigits(ds) && (|ds| > 1 ==> ds[0] != '0')
    ensures ds == DecimalString(DecimalValue(ds))
  {
    var front := ds[..|ds| - 1];
    var d := ds[|ds| - 1] as int - '0' as int;
    if |ds| == 1 {
      assert front == [];
    } else {
      CanonicalNumeral(front);
      var vf := DecimalValue(front);
      assert front[0] != '0' && DecimalString(0)[0] == '0';
      assert vf >= 1;
      assert ds == front + [ds[|ds| - 1]];
    }
  }

  /** A zero put in front of a numeral with `k` leading zeros gives one with `k + 1`. */
  lemma OneMoreLeadingZero(rest: string, k: nat)
    requires AllDigits(rest) && rest == Zeros(k) + DecimalString(DecimalValue(rest))
    ensures AllDigits(Zeros(1) + rest)
    ensures Zeros(1) + rest == Zeros(k + 1) + DecimalString(DecimalValue(Zeros(1) + rest))
  {
    LeadingZerosIgnored(1, rest);
    assert Zeros(1) + Zeros(k) == Zeros(k + 1);
    assert Zeros(1) + rest == (Zeros(1) + Zeros(k)) + DecimalString(DecimalValue(rest));
  }

  /** Every digit string is some number of zeros followed by the numeral of its value. */
  lemma {:induction false} DigitsAreZerosAndNumeral(ds: string)
    requires ds != [] && AllDigits(ds)
    ensures exists k: nat :: ds == Zeros(k) + DecimalString(DecimalValue(ds))
  {
    if |ds| > 1 && ds[0] == '0' {
      var rest := ds[1..];
      DigitsAreZerosAndNumeral(rest);
      var k: nat :| rest == Zeros(k) + DecimalString(DecimalValue(rest));
      assert ds == Zeros(1) + rest;
      OneMoreLeadingZero(rest, k);
    } else {
      CanonicalNumeral(ds);
      assert ds == Zeros(0) + DecimalString(DecimalValue(ds));
    }
  }

  /** A string of digits behind an optional `+` is a numeral of the digits' value. */
  lemma SignedDigitsAreNumeral(s: string)
    requires Unsigned(s) != [] && AllDigits(Unsigned(s))
    ensures exists plus: bool, k: nat :: s == Numeral(plus, k, DecimalValue(Unsigned(s)))
  {
    var ds := Unsigned(s);
    DigitsAreZerosAndNumeral(ds);
    var k: nat :| ds == Zeros(k) + DecimalString(DecimalValue(ds));
    var plus := s != [] && s[0] == '+';
    if plus {
      assert s == "+" + ds;
    }
    assert s == Numeral(plus, k, DecimalValue(ds));
  }

  /**
   * `u8::from_str` reads a numeral with any number of leading zeros and an optional
   * `+` as its value exactly when that value fits in a `u8`, and rejects it otherwise.
   */
  lemma ParseU8OfNumeral(plus: bool, k: nat, n: nat)
    ensures ParseU8(Numeral(plus, k, n)) == if n <= U8_MAX then Some(n) else None
  {
    var ds := Zeros(k) + DecimalString(n);
    LeadingZerosIgnored(k, DecimalString(n));
    if plus {
      assert Numeral(plus, k, n)[1..] == ds;
    } else {
      assert Numeral(plus, k, n) == ds;
    }
  }

  /**
   * The same holds of a whole input line: white space around the numeral, such as the
   * newline `read_line` keeps, makes no difference.
   */
  lemma ParseGuessOfNumeral(w1: string, plus: bool, k: nat, n: nat, w2: string)
    requires AllWhitespace(w1) && AllWhitespace(w2)
    ensures ParseGuess(w1 + Numeral(plus, k, n) + w2) == if n <= U8_MAX then Some(n) else None
  {
    TrimRemovesPadding(w1, Numeral(plus, k, n), w2);
    ParseU8OfNumeral(plus, k, n);
  }

  /**
   * A line whose trimmed text has a character that is neither a digit nor a leading
   * `+` (a letter, a minus sign, inner white space) is rejected, and so are a blank
   * line and a lone `+`.
   */
  lemma ParseGuessRejects(line: string)
    requires
      var s := Trim(line);
      || s == [] || s == "+"
      || exists i | 0 <= i < |s| :: !IsDigit(s[i]) && !(i == 0 && s[i] == '+')
    ensures ParseGuess(line) == None
  {
    var s := Trim(line);
    if s != [] && s != "+" {
      var i :| 0 <= i < |s| && !IsDigit(s[i]) && !(i == 0 && s[i] == '+');
      if s[0] == '+' {
        assert !IsDigit(s[1..][i - 1]);
      }
    }
  }
}
