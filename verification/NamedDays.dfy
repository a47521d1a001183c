// The business calendar in everyday terms: year, month and day, the lengths of
// the months, and the first of January 1970.
module NamedDays {
  import opened Wrappers
  import opened Text
  import opened Calendar
  import opened BusinessDays

  /** Thirty days in April, June, September and November; 28 or 29 in February; 31 in the others. */
  function MonthLength(y: nat, m: nat): nat {
    if m == 4 || m == 6 || m == 9 || m == 11 then 30
    else if m != 2 then 31
    else if y % 400 == 0 || (y % 4 == 0 && y % 100 != 0) then 29
    else 28
  }

  predicate Real(y: nat, m: nat, d: nat) { y < 10_000 && 1 <= m <= 12 && 1 <= d <= MonthLength(y, m) }

  /** yyyy-mm-dd */
  function Named(y: nat, m: nat, d: nat): string
    requires Real(y, m, d)
  {
    [Numeral(y / 1000), Numeral(y / 100 % 10), Numeral(y / 10 % 10), Numeral(y % 10), '-',
     Numeral(m / 10), Numeral(m % 10), '-', Numeral(d / 10), Numeral(d % 10)]
  }

  function Numeral(k: nat): char
    requires k < 10
  {
    "0123456789"[k]
  }

  function NextOf(y: nat, m: nat, d: nat): (nat, nat, nat) {
    if d < MonthLength(y, m) then (y, m, d + 1) else if m < 12 then (y, m + 1, 1) else (y + 1, 1, 1)
  }

  /** The last day whose name has four year digits. */
  predicate IsLast(y: nat, m: nat, d: nat) { y == 9999 && m == 12 && d == 31 }

  // --------------------------------------------------- against the calendar's numbers

  lemma {:induction false} LengthOfMonth(y: nat, m: nat)
    requires 1 <= m <= 12
    ensures DaysBeforeMonth(Leap(y), m + 1) == DaysBeforeMonth(Leap(y), m) + MonthLength(y, m)
    ensures DaysBeforeMonth(Leap(y), 13) == YearLength(y) && DaysBeforeMonth(Leap(y), 1) == 0
  {
    LeapCases(y);
  }

  lemma {:induction false} RealIsValid(y: nat, m: nat, d: nat)
    ensures Real(y, m, d) <==> y < 10_000 && ValidDate(Date(y, m, d))
  {
    hide DaysBeforeMonth, MonthLength, Leap;
    if 1 <= m <= 12 {
      LengthOfMonth(y, m);
    }
  }

  lemma {:induction false} NumeralIsDigit(k: nat)
    requires k < 10
    ensures Numeral(k) == Digit(k)
  {
    assert Numeral(k) == "0123456789"[k];
  }

  lemma {:induction false} YearDigits(y: nat)
    requires y < 10_000
    ensures y / 100 / 10 == y / 1000 && y / 100 % 10 == y / 100 % 10 && y % 100 / 10 == y / 10 % 10 && y % 100 % 10 == y % 10
  {
  }

  lemma {:induction false} NamedIsSlice(y: nat, m: nat, d: nat)
    requires Real(y, m, d)
    ensures ValidDate(Date(y, m, d)) && Slice(Date(y, m, d)) == Named(y, m, d)
  {
    hide Numeral, Digit, ValidDate, DaysBeforeMonth, Leap;
    RealIsValid(y, m, d);
    YearDigits(y);
    NumeralIsDigit(y / 1000);
    NumeralIsDigit(y / 100 % 10);
    NumeralIsDigit(y / 10 % 10);
    NumeralIsDigit(y % 10);
    NumeralIsDigit(m / 10);
    NumeralIsDigit(m % 10);
    NumeralIsDigit(d / 10);
    NumeralIsDigit(d % 10);
  }

  /** A day of the years 0000 to 9999, as year, month and day. */
  lemma {:induction false} NameOf(n: nat) returns (y: nat, m: nat, d: nat)
    requires n <= LAST_DAY
    ensures Real(y, m, d) && DayNumber(Date(y, m, d)) == n && Ymd(n) == Named(y, m, d)
  {
    hide DateOf, ValidDate, DayNumber, Named, Slice;
    var t := DateOf(n);
    YearInRange(n);
    y, m, d := t.year, t.month, t.day;
    RealIsValid(y, m, d);
    NamedIsSlice(y, m, d);
  }

  lemma {:induction false} NumberOf(y: nat, m: nat, d: nat) returns (n: nat)
    requires Real(y, m, d)
    ensures ValidDate(Date(y, m, d)) && n == DayNumber(Date(y, m, d)) <= LAST_DAY && Ymd(n) == Named(y, m, d)
  {
    hide DateOf, ValidDate, DayNumber, Named, Slice;
    RealIsValid(y, m, d);
    NamedIsSlice(y, m, d);
    assert 1 <= m <= 12 && 1 <= d;
    n := DayNumber(Date(y, m, d));
    DateUnique(n, Date(y, m, d));
    YearOfDate(Date(y, m, d));
  }

  lemma {:induction false} NextNumber(y: nat, m: nat, d: nat)
    requires Real(y, m, d)
    ensures var t := NextOf(y, m, d);
            && 1 <= t.1 <= 12 && 1 <= t.2 <= MonthLength(t.0, t.1)
            && DayNumber(Date(t.0, t.1, t.2)) == DayNumber(Date(y, m, d)) + 1
            && (!IsLast(y, m, d) ==> Real(t.0, t.1, t.2))
  {
    hide MonthLength, DaysBeforeMonth, DaysBeforeYear, Leap;
    LengthOfMonth(y, m);
    LengthOfMonth(y + 1, 1);
    JanuaryLength(y + 1);
    if m < 12 {
      LengthOfMonth(y, m + 1);
      MonthNotEmpty(y, m + 1);
    } else {
      JanuaryLength(y);
      DecemberLength(y);
    }
    YearStep(y);
  }

  lemma {:induction false} MonthNotEmpty(y: nat, m: nat)
    ensures MonthLength(y, m) >= 28
  {
  }

  lemma {:induction false} JanuaryLength(y: nat)
    ensures MonthLength(y, 1) == 31
  {
  }

  lemma {:induction false} DecemberLength(y: nat)
    ensures MonthLength(y, 12) == 31
  {
  }

  lemma {:induction false} EpochNumber()
    ensures ValidDate(Date(1970, 1, 1)) && DayNumber(Date(1970, 1, 1)) == EPOCH
  {
  }

  // ------------------------------------------------------------------------ the laws

  /** The epoch's name. */
  lemma {:induction false} EpochText()
    ensures Real(1970, 1, 1) && Named(1970, 1, 1) == "1970-01-01"
  {
  }

  /** Every instant of the local day that starts at the epoch, whatever the offset, is named 1970-01-01. */
  lemma {:induction false} EpochNamed(ms: int, offset: int)
    requires 0 <= ms + 60_000 * offset < 86_400_000
    ensures DayOf(ms, offset) >= 0 && YmdInBusinessTime(ms, offset) == "1970-01-01"
    ensures StartOfBusinessDay("1970-01-01", offset) == Some(-60_000 * offset)
    ensures EndOfBusinessDay("1970-01-01", offset) == Some(-60_000 * offset + 86_399_999)
  {
    hide Ymd, ParseDay, Real, Named;
    EpochText();
    EpochNumber();
    var n := NumberOf(1970, 1, 1);
    assert DayOf(ms, offset) == n;
    YmdShape(n);
  }

  /** The instants from 0000-01-01 to the last millisecond of 9999-12-30, by the local clock. */
  predicate Nameable(ms: int, offset: int) {
    -62_167_219_200_000 <= ms + 60_000 * offset < 253_402_214_400_000
  }

  lemma {:induction false} NameableDays(ms: int, offset: int)
    requires Nameable(ms, offset)
    ensures 0 <= DayOf(ms, offset) < LAST_DAY && DayOf(ms + 86_400_000, offset) == DayOf(ms, offset) + 1
  {
  }

  /** Twenty-four hours later is the next date of the calendar. */
  lemma {:induction false} NextDateNamed(ms: int, offset: int) returns (y: nat, m: nat, d: nat)
    requires Nameable(ms, offset)
    ensures DayOf(ms, offset) >= 0 && DayOf(ms + 86_400_000, offset) >= 0
    ensures Real(y, m, d) && YmdInBusinessTime(ms, offset) == Named(y, m, d)
    ensures var t := NextOf(y, m, d);
            Real(t.0, t.1, t.2) && YmdInBusinessTime(ms + 86_400_000, offset) == Named(t.0, t.1, t.2)
  {
    hide DayOf, Ymd, DayNumber, Named, Real, NextOf;
    NameableDays(ms, offset);
    y, m, d := NameOf(DayOf(ms, offset));
    NextNumber(y, m, d);
    if IsLast(y, m, d) {
      LastNumber(y, m, d);
    }
    var t := NextOf(y, m, d);
    var n := NumberOf(t.0, t.1, t.2);
  }

  lemma {:induction false} LastNumber(y: nat, m: nat, d: nat)
    requires Real(y, m, d) && IsLast(y, m, d)
    ensures DayNumber(Date(y, m, d)) == LAST_DAY
  {
    EndDates();
  }

  /** A day starts where the day before it ends, and lasts twenty-four hours. */
  lemma {:induction false} DayLasts(y: nat, m: nat, d: nat, offset: int)
    requires Real(y, m, d)
    ensures StartOfBusinessDay(Named(y, m, d), offset).Some? && EndOfBusinessDay(Named(y, m, d), offset).Some?
    ensures EndOfBusinessDay(Named(y, m, d), offset).value == StartOfBusinessDay(Named(y, m, d), offset).value + 86_399_999
    ensures var t := NextOf(y, m, d);
            !IsLast(y, m, d) ==>
              Real(t.0, t.1, t.2)
              && StartOfBusinessDay(Named(t.0, t.1, t.2), offset) == Some(StartOfBusinessDay(Named(y, m, d), offset).value + 86_400_000)
  {
    hide Ymd, ParseDay, DayNumber, Named, Real, NextOf;
    var n := NumberOf(y, m, d);
    YmdShape(n);
    NextNumber(y, m, d);
    if !IsLast(y, m, d) {
      var t := NextOf(y, m, d);
      var k := NumberOf(t.0, t.1, t.2);
      YmdShape(k);
    }
  }

  /** A string is a valid date exactly when it is the name of a real day. */
  lemma {:induction false} ValidExactly(s: string)
    ensures IsValidYmd(s) <==> exists y: nat, m: nat, d: nat :: Real(y, m, d) && s == Named(y, m, d)
  {
    hide Ymd, ParseDay, DayNumber, Named, Real;
    ValidYmdExactly(s);
    if n: nat :| n <= LAST_DAY && s == Ymd(n) {
      var y, m, d := NameOf(n);
    }
    if y: nat, m: nat, d: nat :| Real(y, m, d) && s == Named(y, m, d) {
      var n := NumberOf(y, m, d);
      YmdShape(n);
    }
  }
}
