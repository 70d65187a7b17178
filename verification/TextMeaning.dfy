/** How the canonical texts read: UUIDs as section 4 of RFC 9562 and timestamps as section 5.6 of RFC 3339 have them, with
    the days of the Gregorian calendar. */
module TextMeaning {
  import opened Basics
  import opened Text
  import opened Timestamp

  // ----- UUIDs -----

  predicate IsHexDigit(c: char) {
    '0' <= c <= '9' || 'a' <= c <= 'f'
  }

  lemma {:induction false} FixedIsHex(n: nat, width: nat)
    ensures forall i :: 0 <= i < width ==> IsHexDigit(Fixed(n, Sixteen, width)[i])
  {
    if width > 0 {
      FixedIsHex(Sixteen.Quotient(n), width - 1);
    }
  }

  lemma GroupsAreJoined(h: string)
    requires |h| == 32
    ensures Join(Groups(h), '-') == h[..8] + "-" + (h[8..12] + "-" + (h[12..16] + "-" + (h[16..20] + "-" + h[20..])))
  {
    var g := Groups(h);
    assert g[1..] == [h[8..12], h[12..16], h[16..20], h[20..]];
    assert g[1..][1..] == [h[12..16], h[16..20], h[20..]];
    assert g[1..][1..][1..] == [h[16..20], h[20..]];
    assert g[1..][1..][1..][1..] == [h[20..]];
    assert Join(g[1..][1..][1..], '-') == h[16..20] + "-" + h[20..];
    assert Join(g[1..][1..], '-') == h[12..16] + "-" + (h[16..20] + "-" + h[20..]);
    assert Join(g[1..], '-') == h[8..12] + "-" + (h[12..16] + "-" + (h[16..20] + "-" + h[20..]));
  }

  /** Thirty-six characters: hyphens in the ninth, fourteenth, nineteenth and twenty-fourth place and lower-case
      hexadecimal digits everywhere else. */
  lemma UuidIsWellFormed(id: Id, i: nat)
    requires i < 36
    ensures |UuidText(id)| == 36
    ensures if i == 8 || i == 13 || i == 18 || i == 23 then UuidText(id)[i] == '-' else IsHexDigit(UuidText(id)[i])
  {
    FixedIsHex(id, 32);
    GroupsAreJoined(Fixed(id, Sixteen, 32));
  }

  // ----- The calendar -----

  /** The days before the first of January of a year, from year 1 on: 365 a year, one more every fourth year, except
      every hundredth, except every four-hundredth. */
  function DaysBeforeYear(year: nat): int
    requires year >= 1
  {
    365 * (year - 1) + (year - 1) / 4 - (year - 1) / 100 + (year - 1) / 400
  }

  lemma {:induction false} OneMoreYear(from: nat, years: nat)
    ensures DaysToYear(from, from + years + 1) == DaysToYear(from, from + years) + YearLength(from + years)
    decreases years
  {
    if years > 0 {
      OneMoreYear(from + 1, years - 1);
    }
  }

  lemma FourYears(year: nat)
    requires year >= 1
    ensures year / 4 == (year - 1) / 4 + (if year % 4 == 0 then 1 else 0)
  {
    var q, r := (year - 1) / 4, (year - 1) % 4;
    assert year == 4 * q + (r + 1);
    if r == 3 {
      assert year == 4 * (q + 1);
    }
  }

  lemma Century(year: nat)
    requires year >= 1
    ensures year / 100 == (year - 1) / 100 + (if year % 100 == 0 then 1 else 0)
    ensures year % 100 == 0 ==> year % 4 == 0
  {
    var q, r := (year - 1) / 100, (year - 1) % 100;
    assert year == 100 * q + (r + 1);
    if r == 99 {
      assert year == 100 * (q + 1) == 4 * (25 * (q + 1));
    }
  }

  lemma FourCenturies(year: nat)
    requires year >= 1
    ensures year / 400 == (year - 1) / 400 + (if year % 400 == 0 then 1 else 0)
    ensures year % 400 == 0 ==> year % 100 == 0
  {
    var q, r := (year - 1) / 400, (year - 1) % 400;
    assert year == 400 * q + (r + 1);
    if r == 399 {
      assert year == 400 * (q + 1) == 100 * (4 * (q + 1));
    }
  }

  lemma NextYear(year: nat)
    requires year >= 1
    ensures DaysBeforeYear(year + 1) == DaysBeforeYear(year) + YearLength(year)
  {
    FourYears(year);
    Century(year);
    FourCenturies(year);
  }

  lemma {:induction false} YearsAreGregorian(year: nat)
    requires year >= 1
    ensures DaysToYear(1, year) == DaysBeforeYear(year)
  {
    if year > 1 {
      YearsAreGregorian(year - 1);
      NextYear(year - 1);
      OneMoreYear(1, year - 2);
    }
  }

  /** The days of a common year before each month. */
  const MONTH_STARTS: seq<nat> := [0, 31, 59, 90, 120, 151, 181, 212, 243, 273, 304, 334, 365]

  function DaysBeforeMonth(year: nat, month: nat): nat
    requires 1 <= month <= 13
  {
    var leap := year % 400 == 0 || (year % 4 == 0 && year % 100 != 0);
    MONTH_STARTS[month - 1] + (if leap && month > 2 then 1 else 0)
  }

  lemma {:induction false} OneMoreMonth(year: nat, from: nat, months: nat)
    ensures DaysToMonth(year, from, from + months + 1) ==
      DaysToMonth(year, from, from + months) + MonthLength(year, from + months)
    decreases months
  {
    if months > 0 {
      OneMoreMonth(year, from + 1, months - 1);
    }
  }

  lemma {:induction false} MonthsAreGregorian(year: nat, month: nat)
    requires 1 <= month <= 13
    ensures DaysToMonth(year, 1, month) == DaysBeforeMonth(year, month)
    decreases month
  {
    if month > 1 {
      MonthsAreGregorian(year, month - 1);
      OneMoreMonth(year, 1, month - 2);
    }
  }

  lemma {:induction false} DayIsInMonth(days: nat, year: nat, month: nat)
    ensures var d := DateInYear(days, year, month); 1 <= d.day <= MonthLength(year, d.month)
    decreases days
  {
    if days >= MonthLength(year, month) {
      DayIsInMonth(days - MonthLength(year, month), year, month + 1);
    }
  }

  /** The day number of a date that exists: `day` is one of its month's. */
  ghost predicate IsDay(days: nat, year: nat, month: nat, day: nat) {
    && year >= 1 && 1 <= month <= 12 && 1 <= day <= DaysBeforeMonth(year, month + 1) - DaysBeforeMonth(year, month)
    && days == DaysBeforeYear(year) + DaysBeforeMonth(year, month) + day - 1
  }

  lemma {:induction false} DatesExist(days: nat, year: nat)
    ensures var d := DateFrom(days, year); 1 <= d.day <= MonthLength(d.year, d.month)
    decreases days
  {
    if days < YearLength(year) {
      DayIsInMonth(days, year, 1);
      DateInYearReadsBack(days, year, 1);
    } else {
      DatesExist(days - YearLength(year), year + 1);
    }
  }

  lemma DatesAreGregorian(days: nat)
    ensures var d := DateFrom(days, 1); IsDay(days, d.year, d.month, d.day)
  {
    var d := DateFrom(days, 1);
    DateFromReadsBack(days, 1);
    DatesExist(days, 1);
    YearsAreGregorian(d.year);
    MonthsAreGregorian(d.year, d.month);
    MonthsAreGregorian(d.year, d.month + 1);
    OneMoreMonth(d.year, 1, d.month - 1);
  }

  // ----- Timestamps -----

  /** No fraction of a whole second; else a point and up to nine digits of which the last is not zero. */
  ghost predicate IsFraction(text: string, nanos: nat) {
    if nanos == 0 then text == ""
    else
      && 2 <= |text| <= 10 && text[0] == '.' && text[|text| - 1] != '0'
      && Value(PadZeros(text[1..], 9), Ten) == nanos
  }

  lemma {:induction false} TrimmedHasNoLastZero(s: string)
    ensures TrimZeros(s) == "" || TrimZeros(s)[|TrimZeros(s)| - 1] != '0'
  {
    if s != "" && s[|s| - 1] == '0' {
      TrimmedHasNoLastZero(s[..|s| - 1]);
    }
  }

  lemma {:induction false} OnlyZerosIsZero(s: string)
    requires TrimZeros(s) == ""
    ensures Value(s, Ten) == 0
  {
    if s != "" {
      OnlyZerosIsZero(s[..|s| - 1]);
    }
  }

  lemma FractionReads(nanos: nat)
    requires nanos < SECOND
    ensures IsFraction(Fraction(nanos), nanos)
  {
    FractionReadsBack(nanos);
    var s := Fixed(nanos, Ten, 9);
    TrimReadsBack(s);
    TrimmedHasNoLastZero(s);
    assert Ten.Power(3) == 1000 && Ten.Power(6) == 1000000 && Ten.Power(9) == SECOND;
    FixedReadsBack(nanos, Ten, 9);
    if TrimZeros(s) == "" {
      OnlyZerosIsZero(s);
    }
  }

  /** The text is `year-month-dayThour:minute:secondfractionZ`. */
  predicate IsWritten(text: string, s: Stamp) {
    text == s.year + "-" + s.month + "-" + s.day + "T" + s.hour + ":" + s.minute + ":" + s.second + s.fraction + "Z"
  }

  /** Two-digit fields, except that a year has at least four. */
  predicate HasWidths(s: Stamp) {
    |s.year| >= 4 && |s.month| == 2 && |s.day| == 2 && |s.hour| == 2 && |s.minute| == 2 && |s.second| == 2
  }

  /** The clock fields and the fraction make up what the instant is past its day. */
  ghost predicate ClockReads(s: Stamp, days: nat, t: Instant) {
    var hour, minute, second := Value(s.hour, Ten), Value(s.minute, Ten), Value(s.second, Ten);
    && hour < 24 && minute < 60 && second < 60
    && exists nanos: nat ::
         && nanos < 1_000_000_000 && IsFraction(s.fraction, nanos)
         && t == (((days * 24 + hour) * 60 + minute) * 60 + second) * 1_000_000_000 + nanos
  }

  ghost predicate StampReads(s: Stamp, days: nat, t: Instant) {
    && IsWritten(TimestampText(t), s) && HasWidths(s)
    && IsDay(days, Value(s.year, Ten), Value(s.month, Ten), Value(s.day, Ten)) && ClockReads(s, days, t)
  }

  lemma StampIsWritten(s: Stamp)
    ensures IsWritten(s.Text(), s)
  {
    var p := s.Parts();
    assert p[1..] == [s.month, s.day + s.Clock()] && p[1..][1..] == [s.day + s.Clock()];
    assert Join(p[1..], '-') == s.month + "-" + (s.day + s.Clock());
  }

  lemma {:induction false} DecimalIsLong(n: nat)
    ensures |Decimal(n)| >= 1 && (n >= 10 ==> |Decimal(n)| >= 1 + |Decimal(n / 10)|)
  {
  }

  lemma YearIsLong(year: nat)
    ensures |YearText(year)| >= 4
  {
    if year >= 10000 {
      DecimalIsLong(year);
      DecimalIsLong(year / 10);
      DecimalIsLong(year / 100);
      DecimalIsLong(year / 1000);
      assert year / 10 / 10 == year / 100 && year / 100 / 10 == year / 1000;
    }
  }

  lemma ClockAddsUp(t: Instant)
    ensures var day, second, nanos := t / DAY, t % DAY / SECOND, t % SECOND;
      && second < 86400 && nanos < SECOND
      && t == (((day * 24 + second / 3600) * 60 + second / 60 % 60) * 60 + second % 60) * 1_000_000_000 + nanos
  {
    InstantParts(t);
    var second := t % DAY / SECOND;
    assert second == second / 3600 * 3600 + second / 60 % 60 * 60 + second % 60;
  }

  /** A timestamp is the Gregorian date and the UTC clock of its instant, to the nanosecond. */
  lemma TimestampReads(t: Instant)
    ensures exists s, days :: StampReads(s, days, t)
  {
    var m := MomentOf(t);
    var s := StampAt(m.day, m.second, m.nanos);
    ClockAddsUp(t);
    StampIsWritten(s);
    StampIsRegular(m.day, m.second, m.nanos);
    YearIsLong(DateFrom(m.day, 1).year);
    DatesAreGregorian(m.day);
    FractionReads(m.nanos);
    assert ClockReads(s, m.day, t);
    assert StampReads(s, m.day, t);
  }
}
