/** Proleptic Gregorian dates and the calendar month that contains one. */
module Calendar {
  import opened Text

  datatype DateFields = DateFields(year: int, month: int, day: int)

  predicate Leap(y: int) { y % 4 == 0 && (y % 100 != 0 || y % 400 == 0) }

  function DaysInMonth(y: int, m: int): int
  {
    if m == 2 then (if Leap(y) then 29 else 28)
    else if m == 4 || m == 6 || m == 9 || m == 11 then 30
    else 31
  }

  /** Every second month has 31 days up to July, and again from August; February depends on the year. */
  lemma {:induction false} MonthLengths(y: int, m: int)
    requires 1 <= m <= 12
    ensures m != 2 ==> DaysInMonth(y, m) == 30 + (m + m / 8) % 2
    ensures m == 2 ==> DaysInMonth(y, m) == if y % 400 == 0 || (y % 4 == 0 && y % 100 != 0) then 29 else 28
  {
  }

  predicate IsDate(d: DateFields)
  {
    1 <= d.year <= 9999 && 1 <= d.month <= 12 && 1 <= d.day <= DaysInMonth(d.year, d.month)
  }

  type Date = d: DateFields | IsDate(d) witness DateFields(1, 1, 1)

  /** Date order: by year, then month, then day. */
  predicate Before(a: DateFields, b: DateFields)
  {
    a.year < b.year
    || (a.year == b.year && (a.month < b.month || (a.month == b.month && a.day < b.day)))
  }

  // ----- Day numbers -----

  function DaysBeforeYear(y: int): int
    requires y >= 1
  {
    365 * (y - 1) + (y - 1) / 4 - (y - 1) / 100 + (y - 1) / 400
  }

  function DaysBeforeMonth(y: int, m: int): int
    requires m >= 1
    decreases m
  {
    if m == 1 then 0 else DaysBeforeMonth(y, m - 1) + DaysInMonth(y, m - 1)
  }

  /** Day number of a date; 1 January of year 1 is day 1. */
  function Ordinal(d: Date): int
  {
    DaysBeforeYear(d.year) + DaysBeforeMonth(d.year, d.month) + d.day
  }

  function DaysInYear(y: int): int { if Leap(y) then 366 else 365 }

  lemma {:induction false} Fours(y: int)
    requires y >= 1
    ensures y / 4 == (y - 1) / 4 + if y % 4 == 0 then 1 else 0
  {
  }

  lemma {:induction false} Hundreds(y: int)
    requires y >= 1
    ensures y / 100 == (y - 1) / 100 + if y % 100 == 0 then 1 else 0
  {
  }

  lemma {:induction false} FourHundreds(y: int)
    requires y >= 1
    ensures y / 400 == (y - 1) / 400 + if y % 400 == 0 then 1 else 0
  {
  }

  lemma {:induction false} CenturiesAreFours(y: int)
    requires y % 100 == 0
    ensures y % 4 == 0
  {
    assert y == 4 * (25 * (y / 100));
  }

  lemma {:induction false} FourCenturiesAreCenturies(y: int)
    requires y % 400 == 0
    ensures y % 100 == 0
  {
    assert y == 100 * (4 * (y / 400));
  }

  lemma {:induction false} Multiples(y: int)
    ensures y % 100 == 0 ==> y % 4 == 0
    ensures y % 400 == 0 ==> y % 100 == 0
  {
    if y % 100 == 0 {
      CenturiesAreFours(y);
    }
    if y % 400 == 0 {
      FourCenturiesAreCenturies(y);
    }
  }

  lemma {:induction false} YearStarts(y: int)
    requires y >= 1
    ensures DaysBeforeYear(y + 1) == DaysBeforeYear(y) + DaysInYear(y)
  {
    Multiples(y);
    Fours(y);
    Hundreds(y);
    FourHundreds(y);
  }

  lemma {:induction false} YearLength(y: int)
    ensures DaysBeforeMonth(y, 12) + 31 == DaysInYear(y)
  {
    assert DaysBeforeMonth(y, 3) == DaysBeforeMonth(y, 2) + DaysInMonth(y, 2);
    assert DaysBeforeMonth(y, 6) == DaysBeforeMonth(y, 3) + 92;
    assert DaysBeforeMonth(y, 9) == DaysBeforeMonth(y, 6) + 92;
    assert DaysBeforeMonth(y, 12) == DaysBeforeMonth(y, 9) + 91;
  }

  lemma {:induction false} YearsGrow(y: int, z: int)
    requires 1 <= y < z
    ensures DaysBeforeYear(y) + DaysInYear(y) <= DaysBeforeYear(z)
    decreases z
  {
    YearStarts(z - 1);
    if y < z - 1 {
      YearsGrow(y, z - 1);
    } else {
      assert y == z - 1;
    }
  }

  lemma {:induction false} MonthsGrow(y: int, m: int, n: int)
    requires 1 <= m < n
    ensures DaysBeforeMonth(y, m) + DaysInMonth(y, m) <= DaysBeforeMonth(y, n)
    decreases n
  {
    if m < n - 1 {
      MonthsGrow(y, m, n - 1);
    }
  }

  lemma {:induction false} WithinYear(d: Date)
    ensures 1 <= DaysBeforeMonth(d.year, d.month) + d.day <= DaysInYear(d.year)
  {
    YearLength(d.year);
    if d.month > 1 {
      MonthsGrow(d.year, 1, d.month);
    }
    if d.month < 12 {
      MonthsGrow(d.year, d.month, 12);
    }
  }

  lemma {:induction false} EarlierHasSmallerOrdinal(a: Date, b: Date)
    requires Before(a, b)
    ensures Ordinal(a) < Ordinal(b)
  {
    WithinYear(a);
    WithinYear(b);
    if a.year < b.year {
      YearsGrow(a.year, b.year);
    } else if a.month < b.month {
      MonthsGrow(a.year, a.month, b.month);
    }
  }

  /** Comparing dates and comparing day numbers is the same; a day number belongs to one date. */
  lemma {:induction false} OrdinalOrder(a: Date, b: Date)
    ensures Before(a, b) <==> Ordinal(a) < Ordinal(b)
    ensures a == b <==> Ordinal(a) == Ordinal(b)
  {
    if Before(a, b) {
      EarlierHasSmallerOrdinal(a, b);
    } else if Before(b, a) {
      EarlierHasSmallerOrdinal(b, a);
    } else {
      assert a == b;
    }
  }

  /** `d - timedelta(days=1)` */
  function PreviousDay(d: Date): (p: Date)
    requires d != DateFields(1, 1, 1)
  {
    if d.day > 1 then DateFields(d.year, d.month, d.day - 1)
    else if d.month > 1 then DateFields(d.year, d.month - 1, DaysInMonth(d.year, d.month - 1))
    else DateFields(d.year - 1, 12, 31)
  }

  lemma {:induction false} YearEnd(y: int)
    requires 2 <= y <= 9999
    ensures Ordinal(DateFields(y - 1, 12, 31)) == Ordinal(DateFields(y, 1, 1)) - 1
  {
    YearStarts(y - 1);
    YearLength(y - 1);
  }

  lemma {:induction false} MonthEnd(y: int, m: int)
    requires 1 <= y <= 9999 && 2 <= m <= 12
    ensures Ordinal(DateFields(y, m - 1, DaysInMonth(y, m - 1))) == Ordinal(DateFields(y, m, 1)) - 1
  {
  }

  lemma {:induction false} DayBefore(d: Date)
    requires d.day > 1
    ensures PreviousDay(d) == DateFields(d.year, d.month, d.day - 1)
    ensures Ordinal(PreviousDay(d)) == Ordinal(d) - 1
  {
  }

  lemma {:induction false} PreviousDayIsOneLess(d: Date)
    requires d != DateFields(1, 1, 1)
    ensures Ordinal(PreviousDay(d)) == Ordinal(d) - 1
  {
    if d.day > 1 {
      DayBefore(d);
    } else if d.month > 1 {
      MonthEnd(d.year, d.month);
    } else {
      YearEnd(d.year);
    }
  }

  // ----- Calendar months -----

  /** The last month whose following month is still a date: December 9999 is not. */
  predicate HasMonthBounds(d: Date) { d.year < 9999 || d.month < 12 }

  datatype MonthSpan = MonthSpan(key: string, start: Date, end: Date)

  function MonthStart(d: Date): Date { DateFields(d.year, d.month, 1) }

  function NextMonthStart(d: Date): (n: Date)
    requires HasMonthBounds(d)
  {
    if d.month == 12 then DateFields(d.year + 1, 1, 1) else DateFields(d.year, d.month + 1, 1)
  }

  /** YYYY-MM, the reduced-precision month of section 4.1.2.3 of ISO 8601:2004. */
  function MonthKey(year: nat, month: nat): (s: string)
  {
    Padded(year, 4) + "-" + Padded(month, 2)
  }

  function MonthBounds(d: Date): MonthSpan
    requires HasMonthBounds(d)
  {
    var start := MonthStart(d);
    MonthSpan(MonthKey(start.year, start.month), start, PreviousDay(NextMonthStart(start)))
  }

  /**
   The key of the month containing a date. `fiscal_period_key` computes the bounds with it and so fails
   in December 9999; the text itself is defined for every date.
   */
  function PeriodKey(d: Date): string { MonthKey(d.year, d.month) }

  predicate Contains(span: MonthSpan, d: Date)
  {
    !Before(d, span.start) && !Before(span.end, d)
  }

  lemma {:induction false} BoundsOfMonth(d: Date)
    requires HasMonthBounds(d)
    ensures MonthBounds(d).end == DateFields(d.year, d.month, DaysInMonth(d.year, d.month))
    ensures Contains(MonthBounds(d), d)
    ensures MonthBounds(d).end == PreviousDay(NextMonthStart(d))
  {
  }

  /** Each date lies in its own month, and the month after it starts the very next day. */
  lemma {:induction false} MonthsTile(d: Date)
    requires HasMonthBounds(d)
    ensures Contains(MonthBounds(d), d)
    ensures Ordinal(MonthBounds(d).start) <= Ordinal(d) <= Ordinal(MonthBounds(d).end)
    ensures Ordinal(MonthBounds(d).end) + 1 == Ordinal(NextMonthStart(d))
    ensures HasMonthBounds(NextMonthStart(d)) ==>
              MonthBounds(NextMonthStart(d)).start == NextMonthStart(d)
  {
    BoundsOfMonth(d);
    PreviousDayIsOneLess(NextMonthStart(d));
    OrdinalOrder(d, MonthBounds(d).start);
    OrdinalOrder(MonthBounds(d).end, d);
  }

  predicate SameMonth(d: Date, e: Date) { d.year == e.year && d.month == e.month }

  /** The bounds fail exactly in the last month that dates can name. */
  lemma {:induction false} NoBoundsIff(d: Date)
    ensures HasMonthBounds(d) <==> d.year != 9999 || d.month != 12
    ensures HasMonthBounds(d) <==> exists n: Date :: Before(d, n) && !SameMonth(d, n)
  {
    if HasMonthBounds(d) {
      var n := NextMonthStart(d);
      assert Before(d, n) && !SameMonth(d, n);
    }
  }

  // ----- Period keys -----

  lemma {:induction false} KeyParts(y: int, m: int)
    requires 1 <= y <= 9999 && 1 <= m <= 12
    ensures var k := MonthKey(y, m);
            |k| == 7 && k[4] == '-' && AllDigits(k[..4]) && AllDigits(k[5..])
            && k[..4] == Padded(y, 4) && k[5..] == Padded(m, 2)
            && Value(k[..4]) == y && Value(k[5..]) == m
  {
    var k := MonthKey(y, m);
    assert k[..4] == Padded(y, 4) && k[5..] == Padded(m, 2);
    assert Pow10(2) == 100;
    assert Pow10(4) == 100 * Pow10(2);
    PaddedParses(y, 4);
    PaddedParses(m, 2);
  }

  /** Reads a key back: the year and month it names. */
  function ParseKey(k: string): (int, int)
    requires |k| == 7 && AllDigits(k[..4]) && AllDigits(k[5..])
  {
    (Value(k[..4]), Value(k[5..]))
  }

  lemma {:induction false} KeyRoundTrip(d: Date)
    ensures var k := PeriodKey(d);
            && |k| == 7 && k[4] == '-' && AllDigits(k[..4]) && AllDigits(k[5..])
            && ParseKey(k) == (d.year, d.month)
  {
    KeyParts(d.year, d.month);
  }

  /** Two dates have the same key exactly when they fall in the same calendar month. */
  lemma {:induction false} SameKeyIffSameMonth(d: Date, e: Date)
    ensures PeriodKey(d) == PeriodKey(e) <==> SameMonth(d, e)
  {
    KeyParts(d.year, d.month);
    KeyParts(e.year, e.month);
  }

  /** Sorting keys as strings sorts months by their start. */
  lemma {:induction false} KeyOrderIsDateOrder(d: Date, e: Date)
    ensures Precedes(PeriodKey(d), PeriodKey(e)) <==> Before(MonthStart(d), MonthStart(e))
    ensures Precedes(PeriodKey(d), PeriodKey(e)) <==> Ordinal(MonthStart(d)) < Ordinal(MonthStart(e))
  {
    KeyParts(d.year, d.month);
    KeyParts(e.year, e.month);
    var y, m, z, n := Padded(d.year, 4), Padded(d.month, 2), Padded(e.year, 4), Padded(e.month, 2);
    PrecedesSplits(y + "-", m, z + "-", n);
    PrecedesSplits(y, "-", z, "-");
    OneCharacter('-', '-');
    DigitsOrder(y, z);
    DigitsOrder(m, n);
    assert y + "-" == z + "-" ==> (y + "-")[..4] == (z + "-")[..4];
    assert (y + "-")[..4] == y && (z + "-")[..4] == z;
    OrdinalOrder(MonthStart(d), MonthStart(e));
  }

  /** The bounds are constant on a month and on nothing else. */
  lemma {:induction false} InMonthIffSameKey(d: Date, e: Date)
    requires HasMonthBounds(d)
    ensures Contains(MonthBounds(d), e) <==> PeriodKey(e) == PeriodKey(d)
    ensures Contains(MonthBounds(d), e) ==> HasMonthBounds(e) && MonthBounds(e) == MonthBounds(d)
  {
    BoundsOfMonth(d);
    SameKeyIffSameMonth(d, e);
  }

  /** Two months are the same one or have no day in common. */
  lemma {:induction false} MonthsDisjoint(d: Date, e: Date, x: Date)
    requires HasMonthBounds(d) && HasMonthBounds(e)
    requires Contains(MonthBounds(d), x) && Contains(MonthBounds(e), x)
    ensures MonthBounds(d) == MonthBounds(e)
  {
    InMonthIffSameKey(d, x);
    InMonthIffSameKey(e, x);
  }

  /** `same_fiscal_period_as_today`: compares period keys, so it fails where the bounds do. */
  predicate SameFiscalPeriod(d: Date, today: Date)
    requires HasMonthBounds(d) && HasMonthBounds(today)
  {
    MonthBounds(d).key == MonthBounds(today).key
  }

  lemma {:induction false} SameFiscalPeriodMeaning(d: Date, today: Date)
    requires HasMonthBounds(d) && HasMonthBounds(today)
    ensures SameFiscalPeriod(d, today) <==> Contains(MonthBounds(today), d)
  {
    InMonthIffSameKey(today, d);
  }
}
