/** Dates as the cleaning step handles them. OpenSecrets dates are text
    MM/DD/YYYY; the monthly buckets cut out the year and month with `substr`,
    and the weekly buckets rearrange the text to YYYY-MM-DD and hand it to
    SQLite's `strftime('%Y-%W', ...)`. `%W` is the Monday-first week of the
    year, 00 to 53: the days before the year's first Monday are week 00. */
module Dates {
  import opened Sql

  /** `YEAR_EXPR`: `substr(Date, 7, 4)`. */
  function YearText(date: string): (r: string)
    ensures |r| <= 4
  {
    Substr(date, 7, 4)
  }

  /** `MONTH_EXPR`: `substr(Date, 1, 2)`. */
  function MonthText(date: string): (r: string)
    ensures |r| <= 2
  {
    Substr(date, 1, 2)
  }

  /** `ISO_DATE`: YYYY '-' MM '-' DD cut out of MM/DD/YYYY by position. */
  function IsoDate(date: string): (r: string)
    ensures |date| >= 10 ==> |r| == 10 && r[4] == '-' && r[7] == '-'
  {
    Substr(date, 7, 4) + "-" + Substr(date, 1, 2) + "-" + Substr(date, 4, 2)
  }

  /** The text form the source files use. */
  function UsDate(year: string, month: string, day: string): string {
    month + "/" + day + "/" + year
  }

  /** On a date written MM/DD/YYYY the three cuts recover its parts. */
  lemma IsoDateOfUsDate(year: string, month: string, day: string)
    requires |year| == 4 && |month| == 2 && |day| == 2
    ensures IsoDate(UsDate(year, month, day)) == year + "-" + month + "-" + day
    ensures YearText(UsDate(year, month, day)) == year
    ensures MonthText(UsDate(year, month, day)) == month
  {
    var d := UsDate(year, month, day);
    assert d[6..10] == year && d[0..2] == month && d[3..5] == day;
  }

  // ---------------------------------------------------------------------------
  // Zero-padded decimal text, as `%04d` and `%02d` print it

  function DigitChar(n: nat): (c: char)
    requires n < 10
    ensures IsDigit(c) && DigitValue(c) == n
  {
    ('0' as int + n) as char
  }

  /** `n` printed in `width` digits with leading zeros. */
  function Pad(n: nat, width: nat): (r: string)
    ensures |r| == width && AllDigits(r)
  {
    if width == 0 then "" else Pad(n / 10, width - 1) + [DigitChar(n % 10)]
  }

  lemma DigitsValueSnoc(s: string, c: char)
    requires AllDigits(s) && IsDigit(c)
    ensures DigitsValue(s + [c]) == 10 * DigitsValue(s) + DigitValue(c)
  {
    assert (s + [c])[..|s|] == s;
  }

  lemma {:induction false} DigitsValueBound(s: string)
    requires AllDigits(s)
    ensures DigitsValue(s) < Pow10(|s|)
    decreases |s|
  {
    if s != [] { DigitsValueBound(s[..|s| - 1]); }
  }

  /** Reading back what `Pad` wrote gives the number, when it fits. */
  lemma {:induction false} PadValue(n: nat, width: nat)
    requires n < Pow10(width)
    ensures DigitsValue(Pad(n, width)) == n
    decreases width
  {
    if width > 0 {
      PadValue(n / 10, width - 1);
      DigitsValueSnoc(Pad(n / 10, width - 1), DigitChar(n % 10));
    }
  }

  /** Printing a digit string's value in its own width gives the string back. */
  lemma {:induction false} PadOfDigits(s: string)
    requires AllDigits(s)
    ensures Pad(DigitsValue(s), |s|) == s
    decreases |s|
  {
    if s != [] {
      var init, last := s[..|s| - 1], s[|s| - 1];
      PadOfDigits(init);
      assert DigitsValue(s) / 10 == DigitsValue(init);
      assert DigitChar(DigitsValue(s) % 10) == last;
      assert s == init + [last];
    }
  }

  // ---------------------------------------------------------------------------
  // Parsing YYYY-MM-DD

  datatype Ymd = Ymd(year: nat, month: nat, day: nat)

  /** SQLite's reading of a ten-character YYYY-MM-DD string: four digits,
      then two, then two, month 1..12 and day 1..31; anything else is not a
      date and `strftime` gives NULL. The day is not checked against the
      month: 02-30 is read as two days after 02-28. */
  function ParseIso(s: string): (r: Option<Ymd>)
    ensures r.Some? ==> r.value.year < 10000 && 1 <= r.value.month <= 12 && 1 <= r.value.day <= 31
  {
    if |s| == 10 && AllDigits(s[..4]) && s[4] == '-' && AllDigits(s[5..7]) && s[7] == '-' && AllDigits(s[8..]) then
      var y, m, d := DigitsValue(s[..4]), DigitsValue(s[5..7]), DigitsValue(s[8..]);
      DigitsValueBound(s[..4]);
      if 1 <= m <= 12 && 1 <= d <= 31 then Some(Ymd(y, m, d)) else None
    else None
  }

  // ---------------------------------------------------------------------------
  // Gregorian day arithmetic

  predicate IsLeap(y: nat) {
    y % 4 == 0 && (y % 100 != 0 || y % 400 == 0)
  }

  function YearLength(y: nat): nat {
    if IsLeap(y) then 366 else 365
  }

  /** Days from 0000-01-01 to January 1 of year `y` (proleptic Gregorian). */
  function DaysBeforeYear(y: nat): int {
    365 * y + (y + 3) / 4 - (y + 99) / 100 + (y + 399) / 400
  }

  /** The closed form adds up the year lengths. */
  lemma DaysBeforeNextYear(y: nat)
    ensures DaysBeforeYear(y + 1) == DaysBeforeYear(y) + YearLength(y)
  {
    assert (y + 4) / 4 == (y + 3) / 4 + (if y % 4 == 0 then 1 else 0);
    assert (y + 100) / 100 == (y + 99) / 100 + (if y % 100 == 0 then 1 else 0);
    assert (y + 400) / 400 == (y + 399) / 400 + (if y % 400 == 0 then 1 else 0);
    if y % 100 == 0 { assert y % 4 == 0; }
    if y % 400 == 0 { assert y % 100 == 0; }
  }

  function MonthLength(y: nat, m: nat): nat
    requires 1 <= m <= 12
  {
    if m == 2 then (if IsLeap(y) then 29 else 28)
    else if m == 4 || m == 6 || m == 9 || m == 11 then 30
    else 31
  }

  /** Days of year `y` before the first of month `m` (13 stands for the
      end of the year). */
  function DaysBeforeMonth(y: nat, m: nat): (r: nat)
    requires 1 <= m <= 13
  {
    var common := [0, 31, 59, 90, 120, 151, 181, 212, 243, 273, 304, 334, 365][m - 1];
    common + (if IsLeap(y) && m > 2 then 1 else 0)
  }

  /** The table adds up the month lengths, and a year's months fill it. */
  lemma DaysBeforeMonthSums(y: nat, m: nat)
    requires 1 <= m <= 12
    ensures DaysBeforeMonth(y, m + 1) == DaysBeforeMonth(y, m) + MonthLength(y, m)
    ensures DaysBeforeMonth(y, 13) == YearLength(y)
  {
  }

  /** Day of the week of day number `n` since 0000-01-01, Monday = 0 as in
      SQLite's `%W` computation; 0000-01-01 was a Saturday. */
  function Weekday(n: int): (w: nat)
    ensures w < 7
  {
    (n + 5) % 7
  }

  /** 0-based day of the year; a day past the end of its month runs on into
      the next month, never past December 31. */
  function YearDay(d: Ymd): (r: nat)
    requires 1 <= d.month <= 12 && 1 <= d.day <= 31
    ensures r <= 365
  {
    DaysBeforeMonth(d.year, d.month) + d.day - 1
  }

  /** `(nDay + 7 - wd) / 7`, SQLite's `%W` formula, for the day `n` days after
      day number `first`. */
  function WeekFormula(first: int, n: nat): nat {
    (n + 7 - Weekday(first + n)) / 7
  }

  /** `%W` of the day `n` (0-based) of year `y`. */
  function WeekOfYear(y: nat, n: nat): (w: nat)
    requires n <= 365
    ensures w <= 53
  {
    WeekFormula(DaysBeforeYear(y), n)
  }

  /** How many Mondays fall on the days `first`, ..., `first + n`. */
  function MondaysThrough(first: int, n: nat): nat {
    (if n == 0 then 0 else MondaysThrough(first, n - 1))
    + (if Weekday(first + n) == 0 then 1 else 0)
  }

  lemma WeekFormulaStep(first: int, n: nat)
    ensures WeekFormula(first, n + 1) == WeekFormula(first, n) + (if Weekday(first + n + 1) == 0 then 1 else 0)
  {
    var r := Weekday(first + n);
    assert Weekday(first + n + 1) == (if r == 6 then 0 else r + 1);
  }

  /** `%W` counts Mondays: a day is in week k when k Mondays of its year have
      begun by then, so January 1 is in week 01 exactly when it is a Monday
      and the week number goes up by one on every Monday. */
  lemma {:induction false} WeekCountsMondays(first: int, n: nat)
    ensures WeekFormula(first, n) == MondaysThrough(first, n)
    decreases n
  {
    if n > 0 {
      WeekCountsMondays(first, n - 1);
      WeekFormulaStep(first, n - 1);
    }
  }

  // ---------------------------------------------------------------------------
  // The weekly bucket

  /** `strftime('%Y-%W', ISO_DATE)`: NULL when the rearranged text is not a
      date; otherwise the year in four digits, '-', the week in two. */
  function WeekLabel(date: string): (r: Field)
    ensures r.Some? ==> |r.value| == 7 && r.value[4] == '-'
  {
    match ParseIso(IsoDate(date))
    case None => None
    case Some(d) => Some(Pad(d.year, 4) + "-" + Pad(WeekOfYear(d.year, YearDay(d)), 2))
  }

  /** The weekly label of a 10-character date starts with the same year text
      as the monthly bucket, and its week is the Monday count of that day. */
  lemma WeekLabelParts(date: string)
    requires |date| == 10
    requires WeekLabel(date).Some?
    ensures WeekLabel(date).value[..4] == YearText(date)
    ensures var d := ParseIso(IsoDate(date)).value;
      DigitsValue(WeekLabel(date).value[5..]) == MondaysThrough(DaysBeforeYear(d.year), YearDay(d))
  {
    var iso := IsoDate(date);
    var d := ParseIso(iso).value;
    var w := WeekLabel(date).value;
    assert iso[..4] == YearText(date);
    PadOfDigits(iso[..4]);
    assert w[..4] == Pad(d.year, 4);
    assert w[5..] == Pad(WeekOfYear(d.year, YearDay(d)), 2);
    PadValue(WeekOfYear(d.year, YearDay(d)), 2);
    WeekCountsMondays(DaysBeforeYear(d.year), YearDay(d));
  }
}
