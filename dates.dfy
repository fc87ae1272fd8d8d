/** Calendar dates as Python's `datetime.date`: the ordering used by the
    historical filter and the ISO rendering stored in every `Date` cell. */
module Dates {
  import opened Text

  datatype Date = Date(year: int, month: int, day: int)

  predicate IsLeapYear(y: int)
  {
    (y % 4 == 0 && y % 100 != 0) || y % 400 == 0
  }

  function DaysInMonth(y: int, m: int): int
  {
    if m == 2 then (if IsLeapYear(y) then 29 else 28)
    else if m == 4 || m == 6 || m == 9 || m == 11 then 30
    else 31
  }

  /** The dates a `datetime.date` can hold (year 1 to 9999). */
  predicate ValidDate(d: Date)
  {
    1 <= d.year <= 9999 && 1 <= d.month <= 12 && 1 <= d.day <= DaysInMonth(d.year, d.month)
  }

  type CalendarDate = d: Date | ValidDate(d) witness Date(1970, 1, 1)

  /** Python's `a < b` on dates: chronological. */
  predicate Before(a: Date, b: Date)
  {
    a.year < b.year
    || (a.year == b.year && a.month < b.month)
    || (a.year == b.year && a.month == b.month && a.day < b.day)
  }

  /** `d.isoformat()`: `YYYY-MM-DD`. */
  function Iso(d: CalendarDate): (s: string)
    ensures |s| == 10 && s[4] == '-' && s[7] == '-'
  {
    Digits(d.year, 4) + MonthDay(d.month, d.day)
  }

  /** Comparing ISO strings as text orders dates chronologically, so sorting a
      `Date` column of ISO strings sorts the rows by date. */
  lemma IsoOrdered(a: CalendarDate, b: CalendarDate)
    requires Before(a, b)
    ensures StrLess(Iso(a), Iso(b))
  {
    var ya, yb := Digits(a.year, 4), Digits(b.year, 4);
    var ta, tb := MonthDay(a.month, a.day), MonthDay(b.month, b.day);
    assert Iso(a) == ya + ta && Iso(b) == yb + tb;
    if a.year < b.year {
      assert Pow10(4) == 10000;
      DigitsOrdered(a.year, b.year, 4);
    } else {
      MonthDayOrdered(a.month, a.day, b.month, b.day);
    }
    StrLessConcat(ya, yb, ta, tb);
  }

  function MonthDay(m: nat, d: nat): string
  {
    "-" + Digits(m, 2) + "-" + Digits(d, 2)
  }

  lemma MonthDayOrdered(ma: nat, da: nat, mb: nat, db: nat)
    requires ma < 100 && mb < 100 && da < 100 && db < 100
    requires ma < mb || (ma == mb && da < db)
    ensures StrLess(MonthDay(ma, da), MonthDay(mb, db))
  {
    assert Pow10(2) == 100;
    var sa, sb := "-" + Digits(ma, 2), "-" + Digits(mb, 2);
    assert MonthDay(ma, da) == sa + ("-" + Digits(da, 2));
    assert MonthDay(mb, db) == sb + ("-" + Digits(db, 2));
    if ma < mb {
      DigitsOrdered(ma, mb, 2);
      StrLessConcat("-", "-", Digits(ma, 2), Digits(mb, 2));
    } else {
      DigitsOrdered(da, db, 2);
      StrLessConcat("-", "-", Digits(da, 2), Digits(db, 2));
    }
    StrLessConcat(sa, sb, "-" + Digits(da, 2), "-" + Digits(db, 2));
  }

  /** Distinct dates have distinct ISO strings, and the string order decides
      the date order in both directions. */
  lemma IsoOrderIff(a: CalendarDate, b: CalendarDate)
    ensures Before(a, b) <==> StrLess(Iso(a), Iso(b))
    ensures a == b <==> Iso(a) == Iso(b)
  {
    if Before(a, b) {
      IsoOrdered(a, b);
      StrLessAsymmetric(Iso(a), Iso(b));
    } else if Before(b, a) {
      IsoOrdered(b, a);
      StrLessAsymmetric(Iso(b), Iso(a));
      StrLessIrreflexive(Iso(a));
    } else {
      assert a == b;
      StrLessIrreflexive(Iso(a));
    }
  }
}
