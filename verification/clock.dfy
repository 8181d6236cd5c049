/** Times of day as the train records hold them: Go's `time.Parse` with the
    layout "15:04:05" yields an instant on 0000-01-01 (UTC), while a field the
    decoder never sets keeps Go's zero `time.Time`, 0001-01-01 00:00:00. */
module Clock {
  import opened Results
  import opened Strconv

  const SecondsPerDay := 86400

  /** Year 0 of the proleptic Gregorian calendar is a leap year. */
  const DaysInYearZero := 366

  type DaySeconds = s: nat | s < 86400

  datatype TimeValue = ZeroTime | TimeOfDay(secs: DaySeconds)

  /** Seconds from 0000-01-01 00:00:00 UTC to the instant `t` stands for. */
  function Instant(t: TimeValue): (r: nat)
    ensures t.TimeOfDay? <==> r < SecondsPerDay
  {
    match t
    case ZeroTime => DaysInYearZero * SecondsPerDay
    case TimeOfDay(s) => s
  }

  /** `time.Time.Before`: a parsed time is before the zero time and after
      nothing unset; two parsed times compare by time of day. */
  predicate Before(t: TimeValue, u: TimeValue): (b: bool)
    ensures b <==> t.TimeOfDay? && (u.ZeroTime? || t.secs < u.secs)
  {
    Instant(t) < Instant(u)
  }

  /** A parsed time of day is always before the zero time, so a record whose
      time field was never set sorts after every record whose field was. */
  lemma {:induction false} ParsedBeforeZero(s: DaySeconds)
    ensures Before(TimeOfDay(s), ZeroTime)
  {
  }

  function TwoDigits(a: char, b: char): (n: nat)
    requires IsDigit(a) && IsDigit(b)
    ensures n < 100
  {
    10 * DigitValue(a) + DigitValue(b)
  }

  /** `time.Parse("15:04:05", s)` reduced to the time of day: the hour has one
      or two digits, minute and second exactly two, the separators are `:`,
      nothing may follow, and hour < 24, minute < 60, second < 60. */
  function ParseClock(s: string): (r: Option<DaySeconds>)
    ensures r.Some? ==> (|s| == 7 || |s| == 8) && s[|s| - 3] == ':' && s[|s| - 6] == ':'
  {
    var w := if |s| >= 2 && IsDigit(s[1]) then 2 else 1;
    if |s| != w + 6 || !IsDigit(s[0]) then None
    else if !(s[w] == ':' && IsDigit(s[w + 1]) && IsDigit(s[w + 2])
              && s[w + 3] == ':' && IsDigit(s[w + 4]) && IsDigit(s[w + 5])) then None
    else
      var hour := if w == 2 then TwoDigits(s[0], s[1]) else DigitValue(s[0]);
      var minute := TwoDigits(s[w + 1], s[w + 2]);
      var second := TwoDigits(s[w + 4], s[w + 5]);
      if hour < 24 && minute < 60 && second < 60 then Some(hour * 3600 + minute * 60 + second)
      else None
  }

  function Pad2(n: nat): (s: string)
    requires n < 100
    ensures |s| == 2 && IsDigit(s[0]) && IsDigit(s[1]) && TwoDigits(s[0], s[1]) == n
  {
    [DigitChar(n / 10), DigitChar(n % 10)]
  }

  /** The canonical "HH:MM:SS" text of a time of day. */
  function FormatClock(t: DaySeconds): (s: string)
    ensures |s| == 8
  {
    Pad2(t / 3600) + ":" + Pad2(t / 60 % 60) + ":" + Pad2(t % 60)
  }

  lemma {:induction false} SplitSeconds(t: DaySeconds)
    ensures t / 3600 < 24 && t / 60 % 60 < 60 && t % 60 < 60
    ensures t == (t / 3600) * 3600 + (t / 60 % 60) * 60 + t % 60
  {
    var q := t / 60;
    assert t == q * 60 + t % 60;
    assert q == (q / 60) * 60 + q % 60;
    assert q / 60 == t / 3600;
  }

  lemma {:induction false} JoinSeconds(h: nat, m: nat, s: nat)
    requires h < 24 && m < 60 && s < 60
    ensures var t := h * 3600 + m * 60 + s; t / 3600 == h && t / 60 % 60 == m && t % 60 == s
  {
    var t := h * 3600 + m * 60 + s;
    assert t == (h * 60 + m) * 60 + s;
    assert t / 60 == h * 60 + m;
    assert t / 3600 == (t / 60) / 60;
  }

  /** Every time of day survives formatting and parsing. */
  lemma {:induction false} ParseFormat(t: DaySeconds)
    ensures ParseClock(FormatClock(t)) == Some(t)
  {
    SplitSeconds(t);
    var s := FormatClock(t);
    assert s[0..2] == Pad2(t / 3600);
    assert s[3..5] == Pad2(t / 60 % 60);
    assert s[6..8] == Pad2(t % 60);
  }

  /** A time before 10:00 also parses from its text without the hour's
      leading zero, the form "9:05:00". */
  lemma {:induction false} ParseFormatShort(t: DaySeconds)
    requires t < 36000
    ensures ParseClock(FormatClock(t)[1..]) == Some(t)
  {
    SplitSeconds(t);
    var s := FormatClock(t);
    var u := s[1..];
    assert s[0..2] == Pad2(t / 3600);
    assert s[0] == '0';
    assert s[3..5] == Pad2(t / 60 % 60) && s[6..8] == Pad2(t % 60);
    assert u[2..4] == s[3..5] && u[5..7] == s[6..8];
    assert DigitValue(u[0]) == t / 3600;
    assert u[1] == ':';
  }

  lemma {:induction false} PadDigits(a: char, b: char)
    requires IsDigit(a) && IsDigit(b)
    ensures Pad2(TwoDigits(a, b)) == [a, b]
  {
  }

  lemma {:induction false} FormatFields(h0: char, h1: char, m0: char, m1: char, s0: char, s1: char)
    requires IsDigit(h0) && IsDigit(h1) && IsDigit(m0) && IsDigit(m1) && IsDigit(s0) && IsDigit(s1)
    requires TwoDigits(h0, h1) < 24 && TwoDigits(m0, m1) < 60 && TwoDigits(s0, s1) < 60
    ensures FormatClock(TwoDigits(h0, h1) * 3600 + TwoDigits(m0, m1) * 60 + TwoDigits(s0, s1))
            == [h0, h1, ':', m0, m1, ':', s0, s1]
  {
    JoinSeconds(TwoDigits(h0, h1), TwoDigits(m0, m1), TwoDigits(s0, s1));
    PadDigits(h0, h1);
    PadDigits(m0, m1);
    PadDigits(s0, s1);
  }

  /** Parsing loses nothing but a missing leading zero of the hour: formatting
      the parsed value gives back the text, with that zero restored. */
  lemma {:induction false} FormatParse(s: string, t: DaySeconds)
    requires ParseClock(s) == Some(t)
    ensures FormatClock(t) == if |s| == 8 then s else "0" + s
  {
    if |s| == 8 {
      FormatFields(s[0], s[1], s[3], s[4], s[6], s[7]);
      assert s == [s[0], s[1], ':', s[3], s[4], ':', s[6], s[7]];
    } else {
      assert DigitValue(s[0]) == TwoDigits('0', s[0]);
      FormatFields('0', s[0], s[2], s[3], s[5], s[6]);
      assert "0" + s == ['0', s[0], ':', s[2], s[3], ':', s[5], s[6]];
    }
  }

  /** The examples a caller meets: a canonical time, a one-digit hour, and an
      hour and a minute both out of range. */
  lemma {:induction false} ParseClockExamples()
    ensures ParseClock("10:25:00") == Some(37500)
    ensures ParseClock("9:05:00") == Some(32700)
    ensures ParseClock("25:99:00") == None
  {
    assert TwoDigits('1', '0') == 10;
    assert TwoDigits('2', '5') == 25;
    assert TwoDigits('0', '5') == 5;
    assert TwoDigits('0', '0') == 0;
  }
}
