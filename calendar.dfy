/** Calendar dates of time instants and their "2006-01-02" layout, as Go's
    time.Format writes them for the statistics period label. Dates are
    proleptic Gregorian, computed in UTC. */
module Calendar {
  import opened Common
  import opened Strings

  const NanosPerDay: int := 24 * Hour

  /** Days from 0001-01-01 to 1970-01-01. */
  const UnixEpochDay: int := 719_162

  /** Days in a 400-year Gregorian cycle. */
  const DaysPerCycle: int := 146_097

  predicate IsLeap(y: int) { y % 4 == 0 && (y % 100 != 0 || y % 400 == 0) }

  function DaysInYear(y: int): int { if IsLeap(y) then 366 else 365 }

  function DaysInMonth(y: int, m: int): (n: int)
    requires 1 <= m <= 12
    ensures 28 <= n <= 31
  {
    if m == 2 then (if IsLeap(y) then 29 else 28)
    else if m == 4 || m == 6 || m == 9 || m == 11 then 30
    else 31
  }

  /** Days of year `y` before the first of month `m`; m = 13 gives the whole year. */
  function DaysBeforeMonth(y: int, m: int): int
    requires 1 <= m <= 13
  {
    if m == 1 then 0 else DaysBeforeMonth(y, m - 1) + DaysInMonth(y, m - 1)
  }

  lemma MonthsMakeYear(y: int)
    ensures DaysBeforeMonth(y, 13) == DaysInYear(y)
  {
    var leap := if IsLeap(y) then 1 else 0;
    assert DaysBeforeMonth(y, 2) == 31;
    assert DaysBeforeMonth(y, 3) == 59 + leap;
    assert DaysBeforeMonth(y, 4) == 90 + leap;
    assert DaysBeforeMonth(y, 5) == 120 + leap;
    assert DaysBeforeMonth(y, 6) == 151 + leap;
    assert DaysBeforeMonth(y, 7) == 181 + leap;
    assert DaysBeforeMonth(y, 8) == 212 + leap;
    assert DaysBeforeMonth(y, 9) == 243 + leap;
    assert DaysBeforeMonth(y, 10) == 273 + leap;
    assert DaysBeforeMonth(y, 11) == 304 + leap;
    assert DaysBeforeMonth(y, 12) == 334 + leap;
  }

  /** Days from 0001-01-01 to January 1 of year `y`. */
  function DaysBeforeYear(y: int): int
  {
    var x := y - 1;
    365 * x + x / 4 - x / 100 + x / 400
  }

  /** One step of floor division by a positive constant. */
  lemma FloorStep(x: int, n: int)
    requires n == 4 || n == 100 || n == 400
    ensures (x + 1) / n - x / n == if (x + 1) % n == 0 then 1 else 0
  {
  }

  /** Every multiple of 400 is a multiple of 100, and every multiple of
      100 a multiple of 4. */
  lemma DivisibilityChain(y: int)
    ensures y % 400 == 0 ==> y % 100 == 0
    ensures y % 100 == 0 ==> y % 4 == 0
  {
    if y % 400 == 0 {
      assert y == 400 * (y / 400);
    }
    if y % 100 == 0 {
      assert y == 100 * (y / 100);
    }
  }

  lemma NextYear(y: int)
    ensures DaysBeforeYear(y + 1) == DaysBeforeYear(y) + DaysInYear(y)
  {
    var x := y - 1;
    FloorStep(x, 4);
    FloorStep(x, 100);
    FloorStep(x, 400);
    assert x + 1 == y;
    DivisibilityChain(y);
    assert DaysBeforeYear(y + 1) == 365 * y + y / 4 - y / 100 + y / 400;
    assert DaysBeforeYear(y) == 365 * x + x / 4 - x / 100 + x / 400;
  }

  lemma CycleStart(k: int)
    ensures DaysBeforeYear(1 + 400 * k) == DaysPerCycle * k
  {
    assert (400 * k) / 4 == 100 * k;
    assert (400 * k) / 100 == 4 * k;
    assert (400 * k) / 400 == k;
  }

  datatype Date = Date(year: int, month: int, day: int)

  predicate ValidDate(d: Date)
  {
    1 <= d.month <= 12 && 1 <= d.day <= DaysInMonth(d.year, d.month)
  }

  /** Days from 0001-01-01 to `d`, by the closed Gregorian formula. */
  function DayNumber(d: Date): int
    requires 1 <= d.month <= 12
  {
    DaysBeforeYear(d.year) + DaysBeforeMonth(d.year, d.month) + d.day - 1
  }

  /** Walks whole years forward from January 1 of `y` until fewer than a
      year's days `r` remain. */
  function YearWalk(y: int, r: nat): (yd: (int, nat))
    ensures yd.1 < DaysInYear(yd.0)
    ensures DaysBeforeYear(yd.0) + yd.1 == DaysBeforeYear(y) + r
    decreases r
  {
    if r < DaysInYear(y) then (y, r)
    else
      NextYear(y);
      YearWalk(y + 1, r - DaysInYear(y))
  }

  /** Walks whole months forward from the first of month `m` of year `y`. */
  function MonthWalk(y: int, m: int, r: nat): (d: Date)
    requires 1 <= m <= 12
    requires DaysBeforeMonth(y, m) + r < DaysInYear(y)
    ensures ValidDate(d) && d.year == y
    ensures DaysBeforeMonth(y, d.month) + d.day - 1 == DaysBeforeMonth(y, m) + r
    decreases 13 - m
  {
    if r < DaysInMonth(y, m) then Date(y, m, r + 1)
    else
      MonthsMakeYear(y);
      MonthWalk(y, m + 1, r - DaysInMonth(y, m))
  }

  /** The UTC calendar date of instant `t`: a real date whose day number is
      the number of whole days from 0001-01-01 to `t`. */
  function DateOf(t: Time): (d: Date)
    ensures ValidDate(d)
    ensures DayNumber(d) == t / NanosPerDay + UnixEpochDay
  {
    var days := t / NanosPerDay + UnixEpochDay;
    var cycle := days / DaysPerCycle;
    var yd := YearWalk(1 + 400 * cycle, days % DaysPerCycle);
    CycleStart(cycle);
    MonthsMakeYear(yd.0);
    MonthWalk(yd.0, 1, yd.1)
  }

  /** time.Time.Format("2006-01-02"): the year padded to four digits, the
      month and the day to two, joined by '-'. */
  function FormatDate(d: Date): (text: string)
  {
    PadInt(d.year, 4) + "-" + PadInt(d.month, 2) + "-" + PadInt(d.day, 2)
  }

  /** For years 0 through 9999 the layout is exactly YYYY-MM-DD and each
      field reads back as the date's own number. */
  lemma FormatDateFields(d: Date)
    requires ValidDate(d) && 0 <= d.year <= 9999
    ensures |FormatDate(d)| == 10
    ensures FormatDate(d)[4] == '-' && FormatDate(d)[7] == '-'
    ensures AllDigits(FormatDate(d)[..4]) && DigitsValue(FormatDate(d)[..4]) == d.year
    ensures AllDigits(FormatDate(d)[5..7]) && DigitsValue(FormatDate(d)[5..7]) == d.month
    ensures AllDigits(FormatDate(d)[8..]) && DigitsValue(FormatDate(d)[8..]) == d.day
  {
    assert Pow10(2) == 100;
    assert Pow10(4) == 10000;
    PadIntExact(d.year, 4);
    PadIntExact(d.month, 2);
    PadIntExact(d.day, 2);
    Fields(PadInt(d.year, 4), PadInt(d.month, 2), PadInt(d.day, 2));
  }

  lemma Fields(a: string, b: string, c: string)
    requires |a| == 4 && |b| == 2 && |c| == 2
    ensures var s := a + "-" + b + "-" + c;
      |s| == 10 && s[4] == '-' && s[7] == '-' && s[..4] == a && s[5..7] == b && s[8..] == c
  {
  }

  /** Go's zero time falls on 0001-01-01. */
  lemma ZeroTimeDate()
    ensures DateOf(ZeroTime) == Date(1, 1, 1)
    ensures FormatDate(DateOf(ZeroTime)) == "0001-01-01"
  {
    assert ZeroTime / NanosPerDay == -UnixEpochDay;
    assert DayNumber(Date(1, 1, 1)) == 0;
    DayNumberInjective(DateOf(ZeroTime), Date(1, 1, 1));
    LabelOfFirst(1);
  }

  /** The label of January 1 of a one-digit year. */
  lemma LabelOfFirst(y: nat)
    requires 1 <= y <= 9
    ensures FormatDate(Date(y, 1, 1)) == "000" + [DigitChar(y)] + "-01-01"
  {
    assert Decimal(y) == [DigitChar(y)];
    assert Decimal(1) == "1";
    assert PadInt(y, 4) == "000" + [DigitChar(y)];
    assert PadInt(1, 2) == "01";
  }

  lemma {:induction false} YearStartsIncrease(a: int, b: int)
    requires a <= b
    ensures DaysBeforeYear(a) <= DaysBeforeYear(b)
    decreases b - a
  {
    if a < b {
      YearStartsIncrease(a, b - 1);
      NextYear(b - 1);
    }
  }

  lemma {:induction false} MonthStartsIncrease(y: int, m1: int, m2: int)
    requires 1 <= m1 <= m2 <= 13
    ensures DaysBeforeMonth(y, m1) <= DaysBeforeMonth(y, m2)
    decreases m2 - m1
  {
    if m1 < m2 {
      MonthStartsIncrease(y, m1, m2 - 1);
    }
  }

  /** A valid date's offset within its year lies inside its own month. */
  lemma OffsetInMonth(d: Date)
    requires ValidDate(d)
    ensures DaysBeforeMonth(d.year, d.month) <= DaysBeforeMonth(d.year, d.month) + d.day - 1 < DaysBeforeMonth(d.year, d.month + 1)
    ensures 0 <= DaysBeforeMonth(d.year, d.month) && DaysBeforeMonth(d.year, d.month + 1) <= DaysInYear(d.year)
  {
    MonthStartsIncrease(d.year, 1, d.month);
    assert DaysBeforeMonth(d.year, d.month + 1) == DaysBeforeMonth(d.year, d.month) + DaysInMonth(d.year, d.month);
    MonthStartsIncrease(d.year, d.month + 1, 13);
    MonthsMakeYear(d.year);
  }

  /** A valid date's day number lies inside its own year and its own month. */
  lemma DayNumberBounds(d: Date)
    requires ValidDate(d)
    ensures DaysBeforeYear(d.year) <= DayNumber(d) < DaysBeforeYear(d.year + 1)
    ensures DaysBeforeMonth(d.year, d.month) <= DayNumber(d) - DaysBeforeYear(d.year) < DaysBeforeMonth(d.year, d.month + 1)
  {
    OffsetInMonth(d);
    NextYear(d.year);
  }

  /** Different valid dates have different day numbers, so DateOf's
      postcondition determines the date uniquely. */
  lemma DayNumberInjective(a: Date, b: Date)
    requires ValidDate(a) && ValidDate(b) && DayNumber(a) == DayNumber(b)
    ensures a == b
  {
    DayNumberBounds(a);
    DayNumberBounds(b);
    if a.year < b.year {
      YearStartsIncrease(a.year + 1, b.year);
    } else if b.year < a.year {
      YearStartsIncrease(b.year + 1, a.year);
    } else if a.month < b.month {
      MonthStartsIncrease(a.year, a.month + 1, b.month);
    } else if b.month < a.month {
      MonthStartsIncrease(a.year, b.month + 1, a.month);
    }
  }

  /** The Unix epoch falls on 1970-01-01. */
  lemma UnixEpochDate()
    ensures DateOf(0) == Date(1970, 1, 1)
    ensures FormatDate(DateOf(0)) == "1970-01-01"
  {
    assert DayNumber(Date(1970, 1, 1)) == UnixEpochDay;
    DayNumberInjective(DateOf(0), Date(1970, 1, 1));
    EpochLabel();
  }

  lemma EpochLabel()
    ensures FormatDate(Date(1970, 1, 1)) == "1970-01-01"
  {
    assert Decimal(1) == "1";
    assert Decimal(19) == "19";
    assert Decimal(197) == "197";
    assert Decimal(1970) == "1970";
    assert PadInt(1970, 4) == "1970";
    assert PadInt(1, 2) == "01";
  }
}
