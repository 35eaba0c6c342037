/**
 * `format_timestamp`: a non-negative number of seconds rendered as a SubRip
 * (`HH:MM:SS,mmm`) or WebVTT (`HH:MM:SS.mmm`) cue time. Seconds are exact
 * reals; Python's float `//` and `%` are written out with `Floor`.
 */
module Timestamp {
  import opened Wrappers
  import opened Text

  /** A non-negative time offset in seconds, as the transcription produces it. */
  type Seconds = r: real | 0.0 <= r

  /** Python's `x // y` on floats with `y > 0`: the floor of the quotient. */
  function FloorDiv(x: real, y: real): int
    requires y > 0.0
  {
    (x / y).Floor
  }

  /** Python's `x % y` on floats with `y > 0`: the remainder has the sign of `y`. */
  function FloatMod(x: real, y: real): real
    requires y > 0.0
  {
    x - y * FloorDiv(x, y) as real
  }

  /** The four fields of a cue time: hours (never wrapped), minutes, whole seconds, milliseconds. */
  datatype Clock = Clock(hours: nat, minutes: nat, seconds: nat, millis: nat)

  /** Minutes and seconds below 60, milliseconds below 1000. */
  predicate InRange(c: Clock) {
    c.minutes < 60 && c.seconds < 60 && c.millis < 1000
  }

  /** The instant a clock names, in seconds. */
  function ClockValue(c: Clock): real {
    (c.hours * 3600 + c.minutes * 60 + c.seconds) as real + c.millis as real / 1000.0
  }

  /** The clock as one whole number of milliseconds. */
  function TotalMillis(c: Clock): nat {
    ((c.hours * 60 + c.minutes) * 60 + c.seconds) * 1000 + c.millis
  }

  /** The in-range clock of a whole number of milliseconds. */
  function ClockOfMillis(t: nat): (c: Clock)
    ensures InRange(c) && TotalMillis(c) == t
  {
    var secs := t / 1000;
    var mins := secs / 60;
    assert t == secs * 1000 + t % 1000;
    assert secs == mins * 60 + secs % 60;
    assert mins == mins / 60 * 60 + mins % 60;
    Clock(mins / 60, mins % 60, secs % 60, t % 1000)
  }

  /** The fields `format_timestamp` computes, step by step as the Python code does. */
  function ClockOf(s: Seconds): (c: Clock)
    ensures InRange(c)
    ensures c.hours == (s / 3600.0).Floor
  {
    var hours := FloorDiv(s, 3600.0);
    var minutes := FloorDiv(FloatMod(s, 3600.0), 60.0);
    var secs := FloatMod(s, 60.0);
    var millis := ((secs - secs.Floor as real) * 1000.0).Floor;
    Clock(hours, minutes, secs.Floor, millis)
  }

  /**
   * Truncation, not rounding: the clock never exceeds the input and falls
   * short of it by less than one millisecond.
   */
  lemma ClockOfTruncates(s: Seconds)
    ensures ClockValue(ClockOf(s)) <= s < ClockValue(ClockOf(s)) + 0.001
  {
    var c := ClockOf(s);
    var r1 := FloatMod(s, 3600.0);
    var r2 := FloatMod(r1, 60.0);
    assert s == 3600.0 * c.hours as real + 60.0 * c.minutes as real + r2;
    var q := FloorDiv(s, 60.0);
    assert q == 60 * c.hours + c.minutes by {
      assert s / 60.0 == (60 * c.hours + c.minutes) as real + r2 / 60.0;
    }
    var secs := FloatMod(s, 60.0);
    assert secs == r2;
    var frac := secs - secs.Floor as real;
    assert c.millis as real <= frac * 1000.0 < c.millis as real + 1.0;
  }

  /** An in-range clock is recovered from its millisecond count. */
  lemma ClockOfTotalMillis(c: Clock)
    requires InRange(c)
    ensures ClockOfMillis(TotalMillis(c)) == c
  {
    var t := TotalMillis(c);
    var secs := (c.hours * 60 + c.minutes) * 60 + c.seconds;
    assert t / 1000 == secs && t % 1000 == c.millis;
    assert secs / 60 == c.hours * 60 + c.minutes && secs % 60 == c.seconds;
    assert (c.hours * 60 + c.minutes) / 60 == c.hours && (c.hours * 60 + c.minutes) % 60 == c.minutes;
  }

  /**
   * The truncated clock is the only in-range clock within one millisecond
   * below `s`: `ClockOf` is exactly "the whole milliseconds of `s`", split
   * into hours, minutes, seconds and milliseconds.
   */
  lemma ClockOfUnique(s: Seconds, c: Clock)
    requires InRange(c) && ClockValue(c) <= s < ClockValue(c) + 0.001
    ensures ClockOf(s) == c == ClockOfMillis((s * 1000.0).Floor)
  {
    var t := (s * 1000.0).Floor;
    assert TotalMillis(c) as real == ClockValue(c) * 1000.0;
    assert t == TotalMillis(c);
    ClockOfTotalMillis(c);
    var d := ClockOf(s);
    ClockOfTruncates(s);
    assert TotalMillis(d) as real == ClockValue(d) * 1000.0;
    assert t == TotalMillis(d);
    ClockOfTotalMillis(d);
  }

  /** The millisecond separator: `.` for WebVTT, `,` for SubRip. */
  function Separator(vtt: bool): char {
    if vtt then '.' else ','
  }

  function FormatClock(c: Clock, vtt: bool): string {
    ZeroPad(c.hours, 2) + ":" + ZeroPad(c.minutes, 2) + ":" + ZeroPad(c.seconds, 2)
    + [Separator(vtt)] + ZeroPad(c.millis, 3)
  }

  /** `format_timestamp(seconds, vtt)`. */
  function FormatTimestamp(seconds: Seconds, vtt: bool): string {
    FormatClock(ClockOf(seconds), vtt)
  }

  /**
   * Fixed width: the rendering ends in `:MM:SS` + separator + `mmm`, every
   * other character is a digit, and the hours take at least two digits —
   * exactly two (twelve characters in all) below 100 hours.
   */
  lemma TimestampLayout(seconds: Seconds, vtt: bool)
    ensures var t := FormatTimestamp(seconds, vtt);
      && |t| >= 12
      && (|t| == 12 <==> seconds < 360000.0)
      && t[|t| - 4] == Separator(vtt) && t[|t| - 7] == ':' && t[|t| - 10] == ':'
      && AllDigits(t[..|t| - 10]) && AllDigits(t[|t| - 9..|t| - 7])
      && AllDigits(t[|t| - 6..|t| - 4]) && AllDigits(t[|t| - 3..])
  {
    var c := ClockOf(seconds);
    ZeroPadWidth(c.hours, 2);
    ZeroPadWidth(c.minutes, 2);
    ZeroPadWidth(c.seconds, 2);
    ZeroPadWidth(c.millis, 3);
    assert Pow10(2) == 100 && Pow10(3) == 1000;
    assert c.hours < 100 <==> seconds < 360000.0;
    FormatClockSlices(c, vtt);
  }

  /** Where each field sits in a rendered in-range clock. */
  lemma FormatClockSlices(c: Clock, vtt: bool)
    requires InRange(c)
    ensures var t := FormatClock(c, vtt);
      && |t| == |ZeroPad(c.hours, 2)| + 10
      && t[..|t| - 10] == ZeroPad(c.hours, 2)
      && t[|t| - 10] == ':'
      && t[|t| - 9..|t| - 7] == ZeroPad(c.minutes, 2)
      && t[|t| - 7] == ':'
      && t[|t| - 6..|t| - 4] == ZeroPad(c.seconds, 2)
      && t[|t| - 4] == Separator(vtt)
      && t[|t| - 3..] == ZeroPad(c.millis, 3)
  {
    ZeroPadWidth(c.minutes, 2);
    ZeroPadWidth(c.seconds, 2);
    ZeroPadWidth(c.millis, 3);
    assert Pow10(2) == 100 && Pow10(3) == 1000;
    FieldSlices(ZeroPad(c.hours, 2), ZeroPad(c.minutes, 2), ZeroPad(c.seconds, 2), Separator(vtt), ZeroPad(c.millis, 3));
  }

  /** Where the pieces of `h:mm:ss` + separator + `mmm` sit, for any strings of those widths. */
  lemma FieldSlices(h: string, m: string, s: string, sep: char, ms: string)
    requires |m| == 2 && |s| == 2 && |ms| == 3
    ensures var t := h + ":" + m + ":" + s + [sep] + ms;
      && |t| == |h| + 10
      && t[..|t| - 10] == h
      && t[|t| - 10] == ':'
      && t[|t| - 9..|t| - 7] == m
      && t[|t| - 7] == ':'
      && t[|t| - 6..|t| - 4] == s
      && t[|t| - 4] == sep
      && t[|t| - 3..] == ms
  {
  }

  /**
   * The SubRip and WebVTT renderings of the same time have the same length
   * and differ only in the millisecond separator.
   */
  lemma SrtVttTimestampsDiffer(seconds: Seconds)
    ensures var srt, vtt := FormatTimestamp(seconds, false), FormatTimestamp(seconds, true);
      && |srt| == |vtt|
      && srt[|srt| - 4] == ',' && vtt[|vtt| - 4] == '.'
      && forall i :: 0 <= i < |srt| && i != |srt| - 4 ==> srt[i] == vtt[i]
  {
    var c := ClockOf(seconds);
    FormatClockSlices(c, false);
    FormatClockSlices(c, true);
  }

  /** Reads a rendered cue time back into its four fields. */
  function ParseTimestamp(t: string, vtt: bool): Option<Clock> {
    if |t| < 12 then None
    else
      var n := |t|;
      var hours, minutes, secs, millis := t[..n - 10], t[n - 9..n - 7], t[n - 6..n - 4], t[n - 3..];
      if t[n - 10] == ':' && t[n - 7] == ':' && t[n - 4] == Separator(vtt)
         && AllDigits(hours) && AllDigits(minutes) && AllDigits(secs) && AllDigits(millis)
      then Some(Clock(Value(hours), Value(minutes), Value(secs), Value(millis)))
      else None
  }

  /** Reading back a rendered in-range clock gives the same clock. */
  lemma ParseFormatClock(c: Clock, vtt: bool)
    requires InRange(c)
    ensures ParseTimestamp(FormatClock(c, vtt), vtt) == Some(c)
  {
    FormatClockSlices(c, vtt);
    ZeroPadWidth(c.hours, 2);
    ZeroPadValue(c.hours, 2);
    ZeroPadValue(c.minutes, 2);
    ZeroPadValue(c.seconds, 2);
    ZeroPadValue(c.millis, 3);
  }

  /**
   * Reading a rendered timestamp back reconstructs the input to within one
   * millisecond, from below.
   */
  lemma TimestampRoundTrip(seconds: Seconds, vtt: bool)
    ensures var c := ParseTimestamp(FormatTimestamp(seconds, vtt), vtt);
      c.Some? && ClockValue(c.value) <= seconds < ClockValue(c.value) + 0.001
  {
    ParseFormatClock(ClockOf(seconds), vtt);
    ClockOfTruncates(seconds);
  }

  lemma FieldExamples()
    ensures ZeroPad(0, 2) == "00" && ZeroPad(1, 2) == "01" && ZeroPad(2, 2) == "02"
    ensures ZeroPad(0, 3) == "000" && ZeroPad(250, 3) == "250" && ZeroPad(500, 3) == "500"
  {
    assert Decimal(0) == "0" && Decimal(1) == "1";
    assert Decimal(2) == "2" && Decimal(5) == "5";
    assert Decimal(25) == Decimal(2) + "5";
    assert Decimal(250) == Decimal(25) + "0";
    assert Decimal(50) == Decimal(5) + "0";
    assert Decimal(500) == Decimal(50) + "0";
  }

  /** The fields of 3661.25 s, 1.25 s, 2.5 s and 0 s. */
  lemma ClockExamples()
    ensures ClockOf(3661.25) == Clock(1, 1, 1, 250)
    ensures ClockOf(1.25) == Clock(0, 0, 1, 250)
    ensures ClockOf(2.5) == Clock(0, 0, 2, 500)
    ensures ClockOf(0.0) == Clock(0, 0, 0, 0)
  {
    ClockOfUnique(3661.25, Clock(1, 1, 1, 250));
    ClockOfUnique(1.25, Clock(0, 0, 1, 250));
    ClockOfUnique(2.5, Clock(0, 0, 2, 500));
    ClockOfUnique(0.0, Clock(0, 0, 0, 0));
  }

  /** 3661.25 s renders as `01:01:01,250` (SubRip) and `01:01:01.250` (WebVTT); 0 s as `00:00:00,000`. */
  lemma TimestampExamples()
    ensures FormatTimestamp(3661.25, false) == "01:01:01,250"
    ensures FormatTimestamp(3661.25, true) == "01:01:01.250"
    ensures FormatTimestamp(0.0, false) == "00:00:00,000"
  {
    ClockExamples();
    FieldExamples();
  }
}
