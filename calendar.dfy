/** The proleptic Gregorian calendar as Python's `datetime` sees it: day
    number 1 is 0001-01-01 and every later number is the next calendar day;
    and the `%d.%m.%Y` rendering of a date used as the bank's date key. */
module Calendar {
  import opened Py

  datatype Date = Date(year: int, month: int, day: int)

  predicate IsLeap(y: int) {
    y % 4 == 0 && (y % 100 != 0 || y % 400 == 0)
  }

  function DaysInYear(y: int): int {
    if IsLeap(y) then 366 else 365
  }

  function DaysInMonth(y: int, m: int): int
    requires 1 <= m <= 12
  {
    if m == 2 then (if IsLeap(y) then 29 else 28)
    else if m == 4 || m == 6 || m == 9 || m == 11 then 30
    else 31
  }

  /** A date of the calendar (years from 1 on, as in Python). */
  predicate Valid(d: Date) {
    1 <= d.year && 1 <= d.month <= 12 && 1 <= d.day <= DaysInMonth(d.year, d.month)
  }

  /** `a` is an earlier calendar day than `b`. */
  predicate Before(a: Date, b: Date) {
    a.year < b.year
    || (a.year == b.year && (a.month < b.month || (a.month == b.month && a.day < b.day)))
  }

  /** The calendar day after `d`. */
  function NextDay(d: Date): (e: Date)
    requires Valid(d)
    ensures Valid(e) && Before(d, e)
  {
    if d.day < DaysInMonth(d.year, d.month) then Date(d.year, d.month, d.day + 1)
    else if d.month < 12 then Date(d.year, d.month + 1, 1)
    else Date(d.year + 1, 1, 1)
  }

  /** The date with day number `n`: 0001-01-01 is day 1, each next number
      the next day. */
  function FromOrdinal(n: int): (d: Date)
    requires n >= 1
    ensures Valid(d)
    decreases n
  {
    if n == 1 then Date(1, 1, 1) else NextDay(FromOrdinal(n - 1))
  }

  /** Days in the years before year `y`, the closed form Python's
      `date.toordinal` uses. */
  function DaysBeforeYear(y: int): (r: int)
    requires y >= 1
    ensures r >= 0
  {
    var k := y - 1;
    assert k / 100 <= k / 4;
    365 * k + k / 4 - k / 100 + k / 400
  }

  /** Days in year `y` before the first of month `m`. */
  function DaysBeforeMonth(y: int, m: int): (r: int)
    requires 1 <= m <= 12
    ensures r >= 0
  {
    if m == 1 then 0 else DaysBeforeMonth(y, m - 1) + DaysInMonth(y, m - 1)
  }

  /** The day number of a date (`date.toordinal()`). */
  function ToOrdinal(d: Date): (n: int)
    requires Valid(d)
    ensures n >= 1
  {
    DaysBeforeYear(d.year) + DaysBeforeMonth(d.year, d.month) + d.day
  }

  /** Day number of 9999-12-31, the last date Python represents. */
  const MAX_ORDINAL: int := 3652059

  lemma MaxOrdinalIsLastDay()
    ensures Valid(Date(9999, 12, 31)) && ToOrdinal(Date(9999, 12, 31)) == MAX_ORDINAL
  {
  }

  lemma YearLength(y: int)
    requires y >= 1
    ensures DaysBeforeYear(y + 1) == DaysBeforeYear(y) + DaysInYear(y)
  {
    NextQuotient(y, 4);
    NextQuotient(y, 100);
    NextQuotient(y, 400);
    MultiplesNest(y);
    LeapCount(y / 4 - (y - 1) / 4, y / 100 - (y - 1) / 100, y / 400 - (y - 1) / 400,
      y % 4 == 0, y % 100 == 0, y % 400 == 0);
  }

  /** Multiples of 400 are multiples of 100, which are multiples of 4. */
  lemma MultiplesNest(y: int)
    ensures y % 400 == 0 ==> y % 100 == 0
    ensures y % 100 == 0 ==> y % 4 == 0
  {
    if y % 400 == 0 {
      MultipleOfMultiple(y, 100, 4);
    }
    if y % 100 == 0 {
      MultipleOfMultiple(y, 4, 25);
    }
  }

  /** A multiple of `d * e` is a multiple of `d`. */
  lemma MultipleOfMultiple(y: int, d: int, e: int)
    requires (d == 100 && e == 4) || (d == 4 && e == 25)
    requires y % (d * e) == 0
    ensures y % d == 0
  {
    var q := y / (d * e);
    assert y == (d * e) * q;
    assert y == d * (e * q);
  }

  /** The count of leap days gained in one year, over whole numbers only. */
  lemma LeapCount(d4: int, d100: int, d400: int, b4: bool, b100: bool, b400: bool)
    requires d4 == (if b4 then 1 else 0) && d100 == (if b100 then 1 else 0) && d400 == (if b400 then 1 else 0)
    requires (b400 ==> b100) && (b100 ==> b4)
    ensures 365 + d4 - d100 + d400 == if b4 && (!b100 || b400) then 366 else 365
  {
  }

  /** Stepping up to `y` crosses a multiple of `d` exactly when `y` is one. */
  lemma NextQuotient(y: int, d: int)
    requires y >= 1 && (d == 4 || d == 100 || d == 400)
    ensures y / d == (y - 1) / d + (if y % d == 0 then 1 else 0)
  {
    if d == 4 {
      assert y / 4 == (y - 1) / 4 + (if y % 4 == 0 then 1 else 0);
    } else if d == 100 {
      assert y / 100 == (y - 1) / 100 + (if y % 100 == 0 then 1 else 0);
    } else {
      assert y / 400 == (y - 1) / 400 + (if y % 400 == 0 then 1 else 0);
    }
  }

  lemma {:induction false} MonthsFillYear(y: int, m: int)
    requires 1 <= m <= 12
    ensures DaysBeforeMonth(y, m) + DaysInMonth(y, m) <= DaysInYear(y)
    ensures m == 12 ==> DaysBeforeMonth(y, m) + DaysInMonth(y, m) == DaysInYear(y)
    ensures forall m' :: m < m' <= 12 ==> DaysBeforeMonth(y, m) + DaysInMonth(y, m) <= DaysBeforeMonth(y, m')
  {
    var b := [0, 31, 59, 90, 120, 151, 181, 212, 243, 273, 304, 334];
    var leap := if IsLeap(y) then 1 else 0;
    forall j | 1 <= j <= 12
      ensures DaysBeforeMonth(y, j) == b[j - 1] + (if j > 2 then leap else 0)
    {
      DaysBeforeMonthTable(y, j);
    }
  }

  lemma {:induction false} DaysBeforeMonthTable(y: int, m: int)
    requires 1 <= m <= 12
    ensures DaysBeforeMonth(y, m)
      == [0, 31, 59, 90, 120, 151, 181, 212, 243, 273, 304, 334][m - 1]
         + (if m > 2 && IsLeap(y) then 1 else 0)
    decreases m
  {
    if m > 1 {
      DaysBeforeMonthTable(y, m - 1);
    }
  }

  /** The next day has the next day number. */
  lemma NextDayOrdinal(d: Date)
    requires Valid(d)
    ensures ToOrdinal(NextDay(d)) == ToOrdinal(d) + 1
  {
    if d.day == DaysInMonth(d.year, d.month) && d.month == 12 {
      MonthsFillYear(d.year, 12);
      YearLength(d.year);
    }
  }

  /** `toordinal` undoes `fromordinal`. */
  lemma {:induction false} OrdinalRoundTrip(n: int)
    requires n >= 1
    ensures ToOrdinal(FromOrdinal(n)) == n
    decreases n
  {
    if n > 1 {
      OrdinalRoundTrip(n - 1);
      NextDayOrdinal(FromOrdinal(n - 1));
    }
  }

  lemma {:induction false} DaysBeforeYearGrows(y: int, z: int)
    requires 1 <= y < z
    ensures DaysBeforeYear(y) + DaysInYear(y) <= DaysBeforeYear(z)
    decreases z - y
  {
    YearLength(y);
    if y + 1 < z {
      DaysBeforeYearGrows(y + 1, z);
    }
  }

  /** Day numbers follow calendar order. */
  lemma OrdinalMonotone(a: Date, b: Date)
    requires Valid(a) && Valid(b) && Before(a, b)
    ensures ToOrdinal(a) < ToOrdinal(b)
  {
    MonthsFillYear(a.year, a.month);
    if a.year < b.year {
      DaysBeforeYearGrows(a.year, b.year);
    }
  }

  /** Conversely, a smaller day number is an earlier date. */
  lemma OrdinalOrder(a: Date, b: Date)
    requires Valid(a) && Valid(b) && ToOrdinal(a) < ToOrdinal(b)
    ensures Before(a, b)
  {
    if !Before(a, b) && a != b {
      OrdinalMonotone(b, a);
    }
  }

  /** `fromordinal` undoes `toordinal`: every date has exactly one day number. */
  lemma FromOrdinalOfToOrdinal(d: Date)
    requires Valid(d)
    ensures ToOrdinal(d) >= 1 && FromOrdinal(ToOrdinal(d)) == d
  {
    var n := ToOrdinal(d);
    var e := FromOrdinal(n);
    OrdinalRoundTrip(n);
    if Before(d, e) {
      OrdinalMonotone(d, e);
    } else if Before(e, d) {
      OrdinalMonotone(e, d);
    }
  }

  /** Larger day numbers are later dates. */
  lemma FromOrdinalMonotone(m: int, n: int)
    requires 1 <= m < n
    ensures Before(FromOrdinal(m), FromOrdinal(n))
  {
    var a, b := FromOrdinal(m), FromOrdinal(n);
    OrdinalRoundTrip(m);
    OrdinalRoundTrip(n);
    if a == b {
    } else if Before(b, a) {
      OrdinalMonotone(b, a);
    }
  }

  /** Up to `MAX_ORDINAL` every date has a four-digit year. */
  lemma YearBound(n: int)
    requires 1 <= n <= MAX_ORDINAL
    ensures FromOrdinal(n).year <= 9999
  {
    var d := FromOrdinal(n);
    var last := Date(9999, 12, 31);
    if d.year > 9999 {
      OrdinalRoundTrip(n);
      OrdinalMonotone(last, d);
    }
  }

  /** `date.fromordinal(n)` over the day numbers Python represents. */
  function DateOf(n: int): (d: Date)
    requires 1 <= n <= MAX_ORDINAL
    ensures Valid(d) && d.year <= 9999
  {
    YearBound(n);
    FromOrdinal(n)
  }

  /** `date.fromordinal(n).toordinal() == n` */
  lemma DateOfOrdinal(n: int)
    requires 1 <= n <= MAX_ORDINAL
    ensures ToOrdinal(DateOf(n)) == n
  {
    OrdinalRoundTrip(n);
  }

  // ---------------------------------------------------------------------
  // strftime("%d.%m.%Y")

  function TwoDigits(n: int): (s: string)
    requires 0 <= n < 100
  {
    [DigitChar(n / 10), DigitChar(n % 10)]
  }

  function FourDigits(n: int): (s: string)
    requires 0 <= n < 10000
  {
    TwoDigits(n / 100) + TwoDigits(n % 100)
  }

  /** A date key: two digits, a dot, two digits, a dot, four digits. */
  predicate IsDateKey(s: string) {
    && |s| == 10 && s[2] == '.' && s[5] == '.'
    && forall i :: 0 <= i < 10 && i != 2 && i != 5 ==> IsDecimal(s[i])
  }

  /** The strings `strftime("%d.%m.%Y")` makes. */
  type DateKey = s: string | IsDateKey(s) witness "01.01.0001"

  /** `strftime("%d.%m.%Y")`: zero-padded day and month, four-digit year. */
  function Strftime(d: Date): (s: DateKey)
    requires Valid(d) && d.year <= 9999
  {
    TwoDigits(d.day) + "." + TwoDigits(d.month) + "." + FourDigits(d.year)
  }

  /** The date a date key names. */
  function ParseDateKey(s: DateKey): Date {
    Date(DigitsValue(s[6..10]), DigitsValue(s[3..5]), DigitsValue(s[0..2]))
  }

  lemma TwoDigitsValue(n: int)
    requires 0 <= n < 100
    ensures DigitsValue(TwoDigits(n)) == n
  {
    var s := TwoDigits(n);
    assert s[..1] == [DigitChar(n / 10)];
    assert s[..1][..0] == [];
    assert DigitsValue(s[..1]) == n / 10;
    assert DigitsValue(s) == 10 * (n / 10) + n % 10;
  }

  lemma FourDigitsValue(n: int)
    requires 0 <= n < 10000
    ensures DigitsValue(FourDigits(n)) == n
  {
    var hi, lo := TwoDigits(n / 100), TwoDigits(n % 100);
    var s := FourDigits(n);
    assert s[..3] == hi + [lo[0]];
    assert s[..3][..2] == hi;
    TwoDigitsValue(n / 100);
    TwoDigitsValue(n % 100);
    assert lo[..1] == [lo[0]];
  }

  /** A date key reads back as the date it was made from. */
  lemma ParseStrftime(d: Date)
    requires Valid(d) && d.year <= 9999
    ensures ParseDateKey(Strftime(d)) == d
  {
    var s := Strftime(d);
    assert s[0..2] == TwoDigits(d.day);
    assert s[3..5] == TwoDigits(d.month);
    assert s[6..10] == FourDigits(d.year);
    TwoDigitsValue(d.day);
    TwoDigitsValue(d.month);
    FourDigitsValue(d.year);
  }

  /** Distinct dates have distinct keys. */
  lemma StrftimeInjective(a: Date, b: Date)
    requires Valid(a) && a.year <= 9999 && Valid(b) && b.year <= 9999
    requires Strftime(a) == Strftime(b)
    ensures a == b
  {
    ParseStrftime(a);
    ParseStrftime(b);
  }

  lemma StrftimeExample()
    ensures Strftime(Date(2024, 3, 5)) == "05.03.2024"
  {
  }
}
