/**
 * `timecode`: the command-line parser for --begin, --end and --cycle. It
 * accepts a plain decimal count of microseconds, or `H:M:S` with an
 * optional `.fraction`, and rejects everything else.
 */
module Timecode {
  import opened Wrappers

  predicate IsDigit(ch: char) {
    '0' <= ch <= '9'
  }

  predicate AllDigits(s: string) {
    forall i :: 0 <= i < |s| ==> IsDigit(s[i])
  }

  /** `str.isdigit`, restricted to ASCII: non-empty and digits only. */
  predicate IsDigits(s: string) {
    |s| > 0 && AllDigits(s)
  }

  /** The value of a decimal numeral, leading zeros allowed (`int(s)`). */
  function DigitsValue(s: string): nat
    requires AllDigits(s)
    decreases |s|
  {
    if s == [] then 0 else DigitsValue(s[..|s| - 1]) * 10 + (s[|s| - 1] as int - '0' as int)
  }

  /** The shortest decimal numeral of `n` (`str(n)`). */
  function DecimalString(n: nat): (s: string)
    ensures IsDigits(s)
  {
    if n < 10 then [('0' as int + n) as char]
    else DecimalString(n / 10) + [('0' as int + n % 10) as char]
  }

  function Pow10(k: nat): nat {
    if k == 0 then 1 else 10 * Pow10(k - 1)
  }

  /** `"0" * k`. */
  function Zeros(k: nat): (s: string)
    ensures |s| == k && AllDigits(s)
  {
    if k == 0 then "" else Zeros(k - 1) + "0"
  }

  /** The fields of a match of `^(\d+):(\d+):(\d+)(?:\.(\d+))?$`. */
  datatype Fields = Fields(hours: string, minutes: string, seconds: string, fraction: Option<string>)

  predicate WellFormed(f: Fields) {
    IsDigits(f.hours) && IsDigits(f.minutes) && IsDigits(f.seconds)
    && (f.fraction.Some? ==> IsDigits(f.fraction.value))
  }

  /** The text a well-formed match spans. */
  function Render(f: Fields): string {
    Clock(f) + FractionText(f.fraction)
  }

  /** The `H:M:S` part of the text. */
  function Clock(f: Fields): string {
    f.hours + ":" + f.minutes + ":" + f.seconds
  }

  /** The `.F` part of the text, empty when there is no fraction. */
  function FractionText(fraction: Option<string>): string {
    if fraction.Some? then "." + fraction.value else ""
  }

  /** The optional final newline `$` lets through. */
  function NewlineText(newline: bool): string {
    if newline then "\n" else ""
  }

  /** The longest run of digits at the start of `s`, and the text after it. */
  function SplitDigits(s: string): (r: (string, string))
    ensures AllDigits(r.0) && s == r.0 + r.1
    ensures r.1 != [] ==> !IsDigit(r.1[0])
  {
    if s != [] && IsDigit(s[0]) then
      var (digits, rest) := SplitDigits(s[1..]);
      assert s == [s[0]] + (digits + rest);
      ([s[0]] + digits, rest)
    else ([], s)
  }

  /** Where `$` can match: at the end of the text, or just before a final newline. */
  predicate IsEnd(rest: string) {
    rest == [] || rest == "\n"
  }

  /**
   * `TIMECODE_PATTERN.match(s)`. Each `\d+` group is the longest run of
   * digits there, since the character after it must be ':' or '.' or the
   * end.
   */
  function MatchTimecode(s: string): Option<Fields> {
    var (hours, r1) := SplitDigits(s);
    if hours == [] || r1 == [] || r1[0] != ':' then None
    else
      var (minutes, r2) := SplitDigits(r1[1..]);
      if minutes == [] || r2 == [] || r2[0] != ':' then None
      else
        var (seconds, r3) := SplitDigits(r2[1..]);
        if seconds == [] then None
        else match MatchFraction(r3)
          case None => None
          case Some(fraction) => Some(Fields(hours, minutes, seconds, fraction))
  }

  /**
   * The optional `(?:\.(\d+))?$` tail of the pattern: `Some(None)` when it
   * is empty, `Some(Some(digits))` when it holds a fraction, `None` when it
   * does not match.
   */
  function MatchFraction(rest: string): Option<Option<string>> {
    if IsEnd(rest) then Some(None)
    else if rest[0] != '.' then None
    else
      var (digits, after) := SplitDigits(rest[1..]);
      if digits == [] || !IsEnd(after) then None
      else Some(Some(digits))
  }

  const TimecodeMessage := "expected an integer or a timecode (12:34:56.789000)"

  /**
   * The fraction in microseconds: six digits as they are, fewer padded on
   * the right with zeros, more handed to `roundFraction`, which stands for
   * the source's `round(float("0." + fraction) * 1e6)`.
   */
  function FractionMicros(fraction: string, roundFraction: string -> nat): nat
    requires AllDigits(fraction)
  {
    if |fraction| == 6 then DigitsValue(fraction)
    else if |fraction| < 6 then DigitsValue(fraction + Zeros(6 - |fraction|))
    else roundFraction(fraction)
  }

  /** Hours, minutes, seconds and microseconds, as microseconds. */
  function ClockMicros(hours: nat, minutes: nat, seconds: nat, micros: nat): nat {
    hours * 3600000000 + minutes * 60000000 + seconds * 1000000 + micros
  }

  function Micros(f: Fields, roundFraction: string -> nat): nat
    requires WellFormed(f)
  {
    ClockMicros(DigitsValue(f.hours), DigitsValue(f.minutes), DigitsValue(f.seconds),
      if f.fraction.Some? then FractionMicros(f.fraction.value, roundFraction) else 0)
  }

  /** `timecode(value)`: an integer count of microseconds, or the source's error message. */
  function Timecode(value: string, roundFraction: string -> nat): Result<nat, string> {
    if IsDigits(value) then Ok(DigitsValue(value))
    else match MatchTimecode(value)
      case None => Err(TimecodeMessage)
      case Some(f) => Ok(Micros(f, roundFraction))
  }

  /** Text of the timecode form: some well-formed fields, optionally followed by one newline. */
  ghost predicate IsTimecodeText(s: string) {
    exists f :: WellFormed(f) && (s == Render(f) || s == Render(f) + "\n")
  }

  // ---- Properties -------------------------------------------------------

  /** Appending a digit multiplies by ten and adds it. */
  lemma DigitsValueSnoc(s: string, ch: char)
    requires AllDigits(s) && IsDigit(ch)
    ensures AllDigits(s + [ch]) && DigitsValue(s + [ch]) == DigitsValue(s) * 10 + (ch as int - '0' as int)
  {
    assert (s + [ch])[..|s|] == s;
  }

  /** The decimal numeral of `n` reads back as `n`. */
  lemma {:induction false} DecimalRoundTrip(n: nat)
    ensures DigitsValue(DecimalString(n)) == n
  {
    if n >= 10 {
      DecimalRoundTrip(n / 10);
      DigitsValueSnoc(DecimalString(n / 10), ('0' as int + n % 10) as char);
    }
  }

  lemma ScaleByTen(v: nat, k: nat)
    requires k > 0
    ensures v * Pow10(k - 1) * 10 == v * Pow10(k)
  {
    var p := Pow10(k - 1);
    assert v * p * 10 == v * (10 * p);
  }

  /** Right-padding with k zeros multiplies the value by 10^k. */
  lemma {:induction false} PadZeros(s: string, k: nat)
    requires AllDigits(s)
    ensures AllDigits(s + Zeros(k)) && DigitsValue(s + Zeros(k)) == DigitsValue(s) * Pow10(k)
  {
    if k == 0 {
      assert s + Zeros(0) == s;
    } else {
      var t := s + Zeros(k - 1);
      PadZeros(s, k - 1);
      assert AllDigits(s + Zeros(k)) && DigitsValue(s + Zeros(k)) == DigitsValue(t) * 10 by {
        var z := Zeros(k - 1);
        assert Zeros(k) == z + "0";
        assert s + (z + "0") == (s + z) + "0";
        DigitsValueSnoc(t, '0');
      }
      ScaleByTen(DigitsValue(s), k);
    }
  }

  /** A run of digits followed by a non-digit, or by nothing, is what SplitDigits finds. */
  lemma {:induction false} SplitDigitsOf(digits: string, rest: string)
    requires AllDigits(digits) && (rest != [] ==> !IsDigit(rest[0]))
    ensures SplitDigits(digits + rest) == (digits, rest)
  {
    if digits == [] {
      assert digits + rest == rest;
    } else {
      assert (digits + rest)[1..] == digits[1..] + rest;
      SplitDigitsOf(digits[1..], rest);
      assert [digits[0]] + digits[1..] == digits;
    }
  }

  /** What the fraction tail matches: nothing or `"." + digits`, then the end or a final newline. */
  lemma MatchFractionSound(rest: string)
    ensures MatchFraction(rest).Some? ==>
      var fraction := MatchFraction(rest).value;
      && (fraction.Some? ==> IsDigits(fraction.value))
      && rest == FractionText(fraction) + NewlineText(rest != [] && rest[|rest| - 1] == '\n')
  {
    if IsEnd(rest) {
      assert rest == FractionText(None) + NewlineText(rest != []);
    } else if rest[0] == '.' {
      var (digits, after) := SplitDigits(rest[1..]);
      if digits != [] && IsEnd(after) {
        assert rest == "." + digits + after;
        assert after == NewlineText(after != []);
      }
    }
  }

  /** The fraction tail matches the text of any fraction, with or without a final newline. */
  lemma MatchFractionRender(fraction: Option<string>, newline: bool)
    requires fraction.Some? ==> IsDigits(fraction.value)
    ensures MatchFraction(FractionText(fraction) + NewlineText(newline)) == Some(fraction)
  {
    var rest := FractionText(fraction) + NewlineText(newline);
    if fraction.Some? {
      assert rest[1..] == fraction.value + NewlineText(newline);
      SplitDigitsOf(fraction.value, NewlineText(newline));
    } else {
      assert rest == NewlineText(newline);
    }
  }

  /** Soundness of the pattern: a match is well formed and spans the whole text but for a final newline. */
  lemma MatchSound(s: string)
    ensures MatchTimecode(s).Some? ==>
      var f := MatchTimecode(s).value;
      WellFormed(f) && (s == Render(f) || s == Render(f) + "\n")
  {
    var (hours, r1) := SplitDigits(s);
    if hours == [] || r1 == [] || r1[0] != ':' {
      return;
    }
    var (minutes, r2) := SplitDigits(r1[1..]);
    if minutes == [] || r2 == [] || r2[0] != ':' {
      return;
    }
    var (seconds, r3) := SplitDigits(r2[1..]);
    if seconds == [] || MatchFraction(r3).None? {
      return;
    }
    var fraction := MatchFraction(r3).value;
    var f := Fields(hours, minutes, seconds, fraction);
    assert MatchTimecode(s) == Some(f);
    MatchFractionSound(r3);
    var tail := FractionText(fraction) + NewlineText(r3 != [] && r3[|r3| - 1] == '\n');
    assert r1 == [':'] + (minutes + ([':'] + (seconds + tail))) by {
      assert r2 == [':'] + (seconds + tail);
      assert r1 == [':'] + (minutes + r2);
    }
    RenderNested(f, r3 != [] && r3[|r3| - 1] == '\n');
  }

  /** The text of some fields and a newline, grouped from the right as the matcher reads it. */
  lemma RenderNested(f: Fields, newline: bool)
    ensures Render(f) + NewlineText(newline)
      == f.hours + ([':'] + (f.minutes + ([':'] + (f.seconds + (FractionText(f.fraction) + NewlineText(newline))))))
  {
  }

  /** Completeness of the pattern: it matches the text of any well-formed fields, with or without a final newline, and recovers them. */
  lemma MatchRender(f: Fields, newline: bool)
    requires WellFormed(f)
    ensures MatchTimecode(Render(f) + NewlineText(newline)) == Some(f)
  {
    var tail := FractionText(f.fraction) + NewlineText(newline);
    var r2 := [':'] + (f.seconds + tail);
    var r1 := [':'] + (f.minutes + r2);
    RenderNested(f, newline);
    assert tail != [] ==> !IsDigit(tail[0]);
    SplitDigitsOf(f.hours, r1);
    assert r1[1..] == f.minutes + r2;
    SplitDigitsOf(f.minutes, r2);
    assert r2[1..] == f.seconds + tail;
    SplitDigitsOf(f.seconds, tail);
    MatchFractionRender(f.fraction, newline);
  }

  /** Text with a ':' in it is not all digits. */
  lemma RenderNotDigits(f: Fields, newline: bool)
    ensures !IsDigits(Render(f) + NewlineText(newline))
  {
    var s := Render(f) + NewlineText(newline);
    assert s[|f.hours|] == ':';
  }

  /** An all-digit string gives its integer value; in particular the numeral of n gives n. */
  lemma TimecodeOfDecimal(n: nat, roundFraction: string -> nat)
    ensures Timecode(DecimalString(n), roundFraction) == Ok(n)
  {
    DecimalRoundTrip(n);
  }

  /** A string of zeros is worth 0. */
  lemma {:induction false} ZerosValue(k: nat)
    ensures DigitsValue(Zeros(k)) == 0
  {
    if k > 0 {
      ZerosValue(k - 1);
      assert Zeros(k)[..k - 1] == Zeros(k - 1);
    }
  }

  /** Leading zeros do not change the value of a numeral. */
  lemma {:induction false} LeadingZeros(k: nat, s: string)
    requires AllDigits(s)
    ensures AllDigits(Zeros(k) + s) && DigitsValue(Zeros(k) + s) == DigitsValue(s)
    decreases |s|
  {
    var t := Zeros(k) + s;
    if s == [] {
      assert t == Zeros(k);
      ZerosValue(k);
    } else {
      LeadingZeros(k, s[..|s| - 1]);
      assert t[..|t| - 1] == Zeros(k) + s[..|s| - 1];
      assert t[|t| - 1] == s[|s| - 1];
    }
  }

  /** A numeral with leading zeros, such as "007", is read as its value. */
  lemma TimecodeOfPaddedDecimal(k: nat, n: nat, roundFraction: string -> nat)
    ensures Timecode(Zeros(k) + DecimalString(n), roundFraction) == Ok(n)
  {
    LeadingZeros(k, DecimalString(n));
    DecimalRoundTrip(n);
  }

  /**
   * `H:M:S[.F]` with at most six fraction digits gives
   * H·3600000000 + M·60000000 + S·1000000 + F·10^(6 − |F|), with or without
   * a final newline.
   */
  lemma TimecodeOfClock(f: Fields, newline: bool, roundFraction: string -> nat)
    requires WellFormed(f)
    requires f.fraction.Some? ==> |f.fraction.value| <= 6
    ensures Timecode(Render(f) + NewlineText(newline), roundFraction) == Ok(
      ClockMicros(DigitsValue(f.hours), DigitsValue(f.minutes), DigitsValue(f.seconds),
        if f.fraction.Some? then DigitsValue(f.fraction.value) * Pow10(6 - |f.fraction.value|) else 0))
  {
    var s := Render(f) + NewlineText(newline);
    assert Timecode(s, roundFraction) == Ok(Micros(f, roundFraction)) by {
      RenderNotDigits(f, newline);
      MatchRender(f, newline);
    }
    var micros := if f.fraction.Some? then DigitsValue(f.fraction.value) * Pow10(6 - |f.fraction.value|) else 0;
    assert (if f.fraction.Some? then FractionMicros(f.fraction.value, roundFraction) else 0) == micros by {
      if f.fraction.Some? {
        FractionPadded(f.fraction.value, roundFraction);
      }
    }
  }

  /** Up to six fraction digits are exact: F·10^(6 − |F|) microseconds. */
  lemma FractionPadded(fraction: string, roundFraction: string -> nat)
    requires AllDigits(fraction) && |fraction| <= 6
    ensures FractionMicros(fraction, roundFraction) == DigitsValue(fraction) * Pow10(6 - |fraction|)
  {
    if |fraction| == 6 {
      assert Pow10(0) == 1;
    } else {
      PadZeros(fraction, 6 - |fraction|);
    }
  }

  /** `timecode` succeeds exactly on all-digit strings and on timecode text; everything else is an error. */
  lemma TimecodeAccepts(value: string, roundFraction: string -> nat)
    ensures Timecode(value, roundFraction).Ok? <==> IsDigits(value) || IsTimecodeText(value)
  {
    MatchSound(value);
    if IsTimecodeText(value) && !IsDigits(value) {
      var f :| WellFormed(f) && (value == Render(f) || value == Render(f) + "\n");
      if value == Render(f) {
        assert value == Render(f) + "";
        MatchRender(f, false);
      } else {
        MatchRender(f, true);
      }
    }
  }
}
