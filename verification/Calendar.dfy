// The proleptic Gregorian calendar of ECMAScript dates, with days numbered
// from 0000-01-01.
module Calendar {
  predicate Leap(y: nat) { y % 4 == 0 && (y % 100 != 0 || y % 400 == 0) }

  function DaysBeforeYear(y: nat): nat { 365 * y + (y + 3) / 4 - (y + 99) / 100 + (y + 399) / 400 }

  function YearLength(y: nat): nat { if Leap(y) then 366 else 365 }

  /** Days of a year before its m-th month; the 13th stands for the whole year. */
  function DaysBeforeMonth(leap: bool, m: nat): nat
    requires 1 <= m <= 13
  {
    [0, 31, 59, 90, 120, 151, 181, 212, 243, 273, 304, 334, 365][m - 1] + if leap && m > 2 then 1 else 0
  }

  datatype Date = Date(year: nat, month: nat, day: nat)

  predicate ValidDate(t: Date) {
    && 1 <= t.month <= 12 && 1 <= t.day
    && t.day <= DaysBeforeMonth(Leap(t.year), t.month + 1) - DaysBeforeMonth(Leap(t.year), t.month)
  }

  function DayNumber(t: Date): nat
    requires 1 <= t.month <= 12 && 1 <= t.day
  {
    DaysBeforeYear(t.year) + DaysBeforeMonth(Leap(t.year), t.month) + (t.day - 1)
  }

  function YearOf(n: nat, y: nat): (r: nat)
    requires DaysBeforeYear(y) <= n
    ensures DaysBeforeYear(r) <= n < DaysBeforeYear(r + 1)
    decreases n - DaysBeforeYear(y)
  {
    YearStep(y);
    if n < DaysBeforeYear(y + 1) then y else YearOf(n, y + 1)
  }

  function MonthOf(leap: bool, k: nat, m: nat): (r: nat)
    requires 1 <= m <= 12 && DaysBeforeMonth(leap, m) <= k < DaysBeforeMonth(leap, 13)
    ensures 1 <= r <= 12 && DaysBeforeMonth(leap, r) <= k < DaysBeforeMonth(leap, r + 1)
    decreases 13 - m
  {
    if m == 12 || k < DaysBeforeMonth(leap, m + 1) then m else MonthOf(leap, k, m + 1)
  }

  /** The date of a day number. */
  function DateOf(n: nat): (t: Date)
    ensures ValidDate(t) && DayNumber(t) == n
  {
    var y := YearOf(n, 0);
    YearStep(y);
    var k := n - DaysBeforeYear(y);
    var m := MonthOf(Leap(y), k, 1);
    Date(y, m, k - DaysBeforeMonth(Leap(y), m) + 1)
  }

  lemma {:induction false} YearStep(y: nat)
    ensures DaysBeforeYear(y + 1) == DaysBeforeYear(y) + YearLength(y)
  {
    FourStep(y);
    HundredStep(y);
    FourHundredStep(y);
    LeapCases(y);
  }

  lemma {:induction false} FourStep(y: nat)
    ensures (y + 4) / 4 == (y + 3) / 4 + if y % 4 == 0 then 1 else 0
  {
  }

  lemma {:induction false} HundredStep(y: nat)
    ensures (y + 100) / 100 == (y + 99) / 100 + if y % 100 == 0 then 1 else 0
  {
  }

  lemma {:induction false} FourHundredStep(y: nat)
    ensures (y + 400) / 400 == (y + 399) / 400 + if y % 400 == 0 then 1 else 0
  {
  }

  lemma {:induction false} LeapCases(y: nat)
    ensures y % 400 == 0 ==> y % 100 == 0
    ensures y % 100 == 0 ==> y % 4 == 0
  {
    if y % 400 == 0 {
      OfHundred(y);
    }
    if y % 100 == 0 {
      OfFour(y);
    }
  }

  lemma {:induction false} OfHundred(y: nat)
    requires y % 400 == 0
    ensures y % 100 == 0
  {
    var q := y / 400;
    assert y == 400 * q;
    HundredFold(4 * q);
  }

  lemma {:induction false} OfFour(y: nat)
    requires y % 100 == 0
    ensures y % 4 == 0
  {
    var q := y / 100;
    assert y == 100 * q;
    FourFold(25 * q);
  }

  lemma {:induction false} HundredFold(k: nat)
    ensures (100 * k) % 100 == 0
  {
  }

  lemma {:induction false} FourFold(k: nat)
    ensures (4 * k) % 4 == 0
  {
  }

  lemma {:induction false} YearsGrow(a: nat, b: nat)
    requires a <= b
    ensures DaysBeforeYear(a) <= DaysBeforeYear(b)
    decreases b - a
  {
    if a < b {
      YearStep(b - 1);
      YearsGrow(a, b - 1);
    }
  }

  predicate Earlier(a: Date, b: Date) {
    a.year < b.year || (a.year == b.year && (a.month < b.month || (a.month == b.month && a.day < b.day)))
  }

  lemma {:induction false} EarlierIsSmaller(a: Date, b: Date)
    requires ValidDate(a) && ValidDate(b) && Earlier(a, b)
    ensures DayNumber(a) < DayNumber(b)
  {
    YearStep(a.year);
    if a.year < b.year {
      YearsGrow(a.year + 1, b.year);
      assert DaysBeforeMonth(Leap(a.year), a.month + 1) <= YearLength(a.year);
    } else if a.month < b.month {
      assert DaysBeforeMonth(Leap(a.year), a.month + 1) <= DaysBeforeMonth(Leap(a.year), b.month);
    }
  }

  /** Dates are ordered, and told apart, as their day numbers are. */
  lemma {:induction false} DateOrder(a: Date, b: Date)
    requires ValidDate(a) && ValidDate(b)
    ensures Earlier(a, b) <==> DayNumber(a) < DayNumber(b)
    ensures a == b <==> DayNumber(a) == DayNumber(b)
  {
    if Earlier(a, b) {
      EarlierIsSmaller(a, b);
    } else if Earlier(b, a) {
      EarlierIsSmaller(b, a);
    }
  }
}
