/** RFC 3339 timestamps with nanoseconds (section 5.6), in UTC, and why they determine the instant. */
module Timestamp {
  import opened Basics
  import opened Text

  const SECOND: nat := 1_000_000_000
  const DAY: nat := 86_400 * SECOND

  // ----- The calendar -----

  predicate Leap(year: nat) {
    year % 4 == 0 && (year % 100 != 0 || year % 400 == 0)
  }

  function YearLength(year: nat): nat {
    if Leap(year) then 366 else 365
  }

  function MonthLength(year: nat, month: nat): nat {
    if month == 2 then (if Leap(year) then 29 else 28)
    else if month == 4 || month == 6 || month == 9 || month == 11 then 30 else 31
  }

  datatype Date = Date(year: nat, month: nat, day: nat)

  /** The date `days` days after the first of `month` in `year`. */
  function DateInYear(days: nat, year: nat, month: nat): Date
    decreases days
  {
    if days < MonthLength(year, month) then Date(year, month, days + 1)
    else DateInYear(days - MonthLength(year, month), year, month + 1)
  }

  /** The date `days` days after the first day of `year`. */
  function DateFrom(days: nat, year: nat): Date
    decreases days
  {
    if days < YearLength(year) then DateInYear(days, year, 1) else DateFrom(days - YearLength(year), year + 1)
  }

  function DaysToMonth(year: nat, from: nat, to: nat): nat
    decreases to - from
  {
    if from >= to then 0 else MonthLength(year, from) + DaysToMonth(year, from + 1, to)
  }

  function DaysToYear(from: nat, to: nat): nat
    decreases to - from
  {
    if from >= to then 0 else YearLength(from) + DaysToYear(from + 1, to)
  }

  lemma {:induction false} DateInYearReadsBack(days: nat, year: nat, month: nat)
    ensures var d := DateInYear(days, year, month);
      && d.year == year && d.month >= month && d.day >= 1
      && DaysToMonth(year, month, d.month) + d.day - 1 == days
    decreases days
  {
    if days >= MonthLength(year, month) {
      DateInYearReadsBack(days - MonthLength(year, month), year, month + 1);
    }
  }

  lemma {:induction false} MonthsMakeAYear(days: nat, year: nat, month: nat)
    requires 1 <= month <= 12 && days < DaysToMonth(year, month, 13)
    ensures DateInYear(days, year, month).month <= 12
    ensures DateInYear(days, year, month).day <= 31
    decreases days
  {
    if days >= MonthLength(year, month) {
      assert month < 12;
      MonthsMakeAYear(days - MonthLength(year, month), year, month + 1);
    }
  }

  lemma YearIsTwelveMonths(year: nat)
    ensures DaysToMonth(year, 1, 13) == YearLength(year)
  {
  }

  lemma {:induction false} DateFromReadsBack(days: nat, year: nat)
    ensures var d := DateFrom(days, year);
      && d.year >= year && 1 <= d.month <= 12 && 1 <= d.day <= 31
      && DaysToYear(year, d.year) + DaysToMonth(d.year, 1, d.month) + d.day - 1 == days
    decreases days
  {
    if days < YearLength(year) {
      DateInYearReadsBack(days, year, 1);
      YearIsTwelveMonths(year);
      MonthsMakeAYear(days, year, 1);
    } else {
      DateFromReadsBack(days - YearLength(year), year + 1);
    }
  }

  // ----- The text -----

  /** A year has at least four digits. */
  function YearText(year: nat): string {
    if year < 10000 then Fixed(year, Ten, 4) else Decimal(year)
  }

  function TrimZeros(s: string): string {
    if s != "" && s[|s| - 1] == '0' then TrimZeros(s[..|s| - 1]) else s
  }

  function Fraction(nanos: nat): string {
    if nanos == 0 then "" else "." + TrimZeros(Fixed(nanos, Ten, 9))
  }

  /** The fields of a timestamp as texts; all but the year and the fraction have two characters. */
  datatype Stamp = Stamp(
    year: string, month: string, day: string, hour: string, minute: string, second: string, fraction: string)
  {
    function Clock(): string {
      "T" + hour + ":" + minute + ":" + second + fraction + "Z"
    }

    function Parts(): seq<string> {
      [year, month, day + Clock()]
    }

    function Text(): string {
      Join(Parts(), '-')
    }

    ghost predicate Regular() {
      && |month| == 2 && |day| == 2 && |hour| == 2 && |minute| == 2 && |second| == 2
      && FreeOf('-') && FreeOf('|')
    }

    ghost predicate FreeOf(c: char) {
      && Free(year, c) && Free(month, c) && Free(day, c) && Free(hour, c) && Free(minute, c) && Free(second, c)
      && Free(fraction, c)
    }
  }

  /** The stamp of a day, a second of the day and a nanosecond of the second. */
  function StampAt(day: nat, second: nat, nanos: nat): Stamp {
    var date := DateFrom(day, 1);
    Stamp(YearText(date.year), Fixed(date.month, Ten, 2), Fixed(date.day, Ten, 2),
          Fixed(second / 3600, Ten, 2), Fixed(second / 60 % 60, Ten, 2), Fixed(second % 60, Ten, 2),
          Fraction(nanos))
  }

  /** An instant as its day, the second of the day and the nanosecond of the second. */
  datatype Moment = Moment(day: nat, second: nat, nanos: nat)
  {
    function Text(): string {
      StampAt(day, second, nanos).Text()
    }

    predicate Fits() {
      second < 86400 && nanos < SECOND
    }
  }

  function MomentOf(t: Instant): Moment {
    Moment(t / DAY, t % DAY / SECOND, t % SECOND)
  }

  /** `Format(time.RFC3339Nano)` of a UTC time. */
  function TimestampText(t: Instant): string {
    MomentOf(t).Text()
  }

  lemma YearReadsBack(year: nat)
    ensures Value(YearText(year), Ten) == year
    ensures Free(YearText(year), '-') && Free(YearText(year), '|')
  {
    if year < 10000 {
      assert Ten.Power(2) == 100 && Ten.Power(4) == 10000;
      FixedReadsBack(year, Ten, 4);
      FixedIsFree(year, Ten, 4, '-');
      FixedIsFree(year, Ten, 4, '|');
    } else {
      DecimalReadsBack(year);
      DecimalIsFree(year, '-');
      DecimalIsFree(year, '|');
    }
  }

  lemma TwoDigitsReadBack(n: nat)
    requires n < 100
    ensures Value(Fixed(n, Ten, 2), Ten) == n
    ensures Free(Fixed(n, Ten, 2), '-') && Free(Fixed(n, Ten, 2), '|')
  {
    assert Ten.Power(1) == 10;
    FixedReadsBack(n, Ten, 2);
    FixedIsFree(n, Ten, 2, '-');
    FixedIsFree(n, Ten, 2, '|');
  }

  /** What a trimmed text was before trimming is known once its length is. */
  function PadZeros(s: string, width: nat): string
    decreases width - |s|
  {
    if |s| >= width then s else PadZeros(s + "0", width)
  }

  lemma {:induction false} TrimReadsBack(s: string)
    ensures PadZeros(TrimZeros(s), |s|) == s && |TrimZeros(s)| <= |s|
    ensures forall c :: Free(s, c) ==> Free(TrimZeros(s), c)
  {
    if s != "" && s[|s| - 1] == '0' {
      var r := s[..|s| - 1];
      TrimReadsBack(r);
      PadOneMore(TrimZeros(r), |r|);
      assert r + "0" == s;
    }
  }

  lemma {:induction false} PadOneMore(s: string, width: nat)
    requires |s| <= width
    ensures PadZeros(s, width + 1) == PadZeros(s, width) + "0"
    decreases width - |s|
  {
    if |s| < width {
      PadOneMore(s + "0", width);
    } else {
      assert PadZeros(s + "0", width + 1) == s + "0";
    }
  }

  lemma FractionReadsBack(nanos: nat)
    requires nanos < SECOND
    ensures Fraction(nanos) == "" <==> nanos == 0
    ensures nanos != 0 ==> Value(PadZeros(Fraction(nanos)[1..], 9), Ten) == nanos
    ensures Free(Fraction(nanos), '-') && Free(Fraction(nanos), '|')
  {
    var s := Fixed(nanos, Ten, 9);
    assert Ten.Power(3) == 1000 && Ten.Power(6) == 1000000 && Ten.Power(9) == SECOND;
    FixedReadsBack(nanos, Ten, 9);
    FixedIsFree(nanos, Ten, 9, '-');
    FixedIsFree(nanos, Ten, 9, '|');
    TrimReadsBack(s);
    assert ("." + TrimZeros(s))[1..] == TrimZeros(s);
  }

  lemma PartsAreFree(s: Stamp)
    requires s.Regular()
    ensures forall f :: f in s.Parts() ==> Free(f, '-') && Free(f, '|')
  {
  }

  lemma ClockIsInjective(s: Stamp, r: Stamp)
    requires s.Regular() && r.Regular() && s.Clock() == r.Clock()
    ensures s.hour == r.hour && s.minute == r.minute && s.second == r.second && s.fraction == r.fraction
  {
    var x, y := s.Clock(), r.Clock();
    assert s.hour == x[1..3] && r.hour == y[1..3];
    assert s.minute == x[4..6] && r.minute == y[4..6];
    assert s.second == x[7..9] && r.second == y[7..9];
    assert s.fraction == x[9..|x| - 1] && r.fraction == y[9..|y| - 1];
  }

  lemma StampIsInjective(s: Stamp, r: Stamp)
    requires s.Regular() && r.Regular() && s.Text() == r.Text()
    ensures s == r
  {
    PartsAreFree(s);
    PartsAreFree(r);
    JoinReadsBack(s.Parts(), '-');
    JoinReadsBack(r.Parts(), '-');
    var f, g := s.Parts(), r.Parts();
    assert f[0] == g[0] && f[1] == g[1] && f[2] == g[2];
    assert f[2][..2] == s.day && g[2][..2] == r.day;
    assert f[2][2..] == s.Clock() && g[2][2..] == r.Clock();
    ClockIsInjective(s, r);
  }

  lemma StampIsRegular(day: nat, second: nat, nanos: nat)
    requires second < 86400 && nanos < SECOND
    ensures StampAt(day, second, nanos).Regular()
    ensures var s, date := StampAt(day, second, nanos), DateFrom(day, 1);
      && Value(s.year, Ten) == date.year && Value(s.month, Ten) == date.month && Value(s.day, Ten) == date.day
      && Value(s.hour, Ten) == second / 3600 && Value(s.minute, Ten) == second / 60 % 60
      && Value(s.second, Ten) == second % 60
  {
    var date := DateFrom(day, 1);
    DateFromReadsBack(day, 1);
    YearReadsBack(date.year);
    TwoDigitsReadBack(date.month);
    TwoDigitsReadBack(date.day);
    TwoDigitsReadBack(second / 3600);
    TwoDigitsReadBack(second / 60 % 60);
    TwoDigitsReadBack(second % 60);
    FractionReadsBack(nanos);
  }

  lemma InstantParts(t: Instant)
    ensures t == t / DAY * DAY + t % DAY / SECOND * SECOND + t % SECOND
  {
    assert t % DAY % SECOND == t % SECOND;
  }

  lemma TimestampIsFree(t: Instant)
    ensures Free(TimestampText(t), '|')
  {
    MomentFits(t);
    MomentTextIsFree(MomentOf(t));
  }

  lemma MomentTextIsFree(m: Moment)
    requires m.Fits()
    ensures Free(m.Text(), '|')
  {
    var stamp := StampAt(m.day, m.second, m.nanos);
    StampIsRegular(m.day, m.second, m.nanos);
    PartsAreFree(stamp);
    JoinIsFree(stamp.Parts(), '-', '|');
  }

  lemma {:induction false} JoinIsFree(parts: seq<string>, separator: char, c: char)
    requires separator != c && forall p :: p in parts ==> Free(p, c)
    ensures Free(Join(parts, separator), c)
  {
    if |parts| == 1 {
      assert parts[0] in parts;
    } else if |parts| > 1 {
      assert parts[0] in parts;
      JoinIsFree(parts[1..], separator, c);
    }
  }

  /** Two instants with the same text are the same instant. */
  lemma TimestampIsInjective(t: Instant, u: Instant)
    requires TimestampText(t) == TimestampText(u)
    ensures t == u
  {
    MomentFits(t);
    MomentFits(u);
    MomentTextIsInjective(MomentOf(t), MomentOf(u));
    SameMomentSameInstant(t, u);
  }

  lemma MomentFits(t: Instant)
    ensures MomentOf(t).Fits()
  {
  }

  lemma SameMomentSameInstant(t: Instant, u: Instant)
    ensures MomentOf(t) == MomentOf(u) ==> t == u
  {
    InstantParts(t);
    InstantParts(u);
  }

  lemma MomentTextIsInjective(m: Moment, n: Moment)
    requires m.Fits() && n.Fits()
    ensures m.Text() == n.Text() ==> m == n
  {
    if m.Text() == n.Text() {
      StampIsRegular(m.day, m.second, m.nanos);
      StampIsRegular(n.day, n.second, n.nanos);
      StampIsInjective(StampAt(m.day, m.second, m.nanos), StampAt(n.day, n.second, n.nanos));
      SameDaySameSecond(m.day, n.day, m.second, n.second);
      SameFraction(m.nanos, n.nanos);
    }
  }

  lemma SameFraction(n: nat, m: nat)
    requires n < SECOND && m < SECOND && Fraction(n) == Fraction(m)
    ensures n == m
  {
    FractionReadsBack(n);
    FractionReadsBack(m);
  }

  lemma SameDaySameSecond(day: nat, day': nat, second: nat, second': nat)
    requires var d, e := DateFrom(day, 1), DateFrom(day', 1);
      d.year == e.year && d.month == e.month && d.day == e.day
    requires second / 3600 == second' / 3600 && second / 60 % 60 == second' / 60 % 60 && second % 60 == second' % 60
    ensures day == day' && second == second'
  {
    DateFromReadsBack(day, 1);
    DateFromReadsBack(day', 1);
    SecondIsItsParts(second, second');
  }

  lemma SecondIsItsParts(s: nat, r: nat)
    requires s / 3600 == r / 3600 && s / 60 % 60 == r / 60 % 60 && s % 60 == r % 60
    ensures s == r
  {
    assert s / 60 / 60 == s / 3600 && r / 60 / 60 == r / 3600;
  }
}
