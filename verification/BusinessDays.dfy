// src/lib/consolidationScope.ts: days of the business-local calendar, as
// strings and as spans of instants.  Instants are milliseconds from
// 1970-01-01 UTC; the offset is in whole minutes.
module BusinessDays {
  import opened Wrappers
  import opened Text
  import opened Ids
  import opened Calendar

  const DAY_MS := 86_400_000
  const EPOCH := 719_528           // the number of 1970-01-01
  const LAST_DAY := 3_652_424      // the number of 9999-12-31
  const MAX_RANGE_DAYS := 366

  // ------------------------------------------------------------------- date strings

  function Two(n: nat): (s: string)
    requires n < 100
    ensures |s| == 2
  {
    [Digit(n / 10), Digit(n % 10)]
  }

  function Four(n: nat): string
    requires n < 10_000
  {
    Two(n / 100) + Two(n % 100)
  }

  /** toISOString().slice(0, 10): years past 9999 take a sign and six digits, which pushes the day out of the slice. */
  function Ymd(n: nat): string { Slice(DateOf(n)) }

  function Slice(t: Date): string
    requires ValidDate(t)
  {
    if t.year < 10_000 then Four(t.year) + "-" + Two(t.month) + "-" + Two(t.day)
    else "+" + PadStart(Decimal(t.year), 6) + "-" + Two(t.month)
  }

  function Value(c: char): nat
    requires IsDigit(c)
  {
    c as int - '0' as int
  }

  predicate DigitsAt(s: string, i: nat, j: nat)
    requires i <= j <= |s|
  {
    forall k | i <= k < j :: IsDigit(s[k])
  }

  /** YMD_RE */
  predicate YmdShaped(s: string) {
    |s| == 10 && s[4] == '-' && s[7] == '-' && DigitsAt(s, 0, 4) && DigitsAt(s, 5, 7) && DigitsAt(s, 8, 10)
  }

  predicate ExpandedShaped(s: string) {
    |s| == 10 && s[0] == '+' && s[7] == '-' && DigitsAt(s, 1, 7) && DigitsAt(s, 8, 10)
  }

  function TwoAt(s: string, i: nat): nat
    requires i + 2 <= |s| && DigitsAt(s, i, i + 2)
  {
    10 * Value(s[i]) + Value(s[i + 1])
  }

  /** The day of new Date(`${s}T00:00:00Z`); a day past the month's end rolls over, and anything else is invalid. */
  function ParseDay(s: string): Option<nat> {
    if YmdShaped(s) then
      var y, m, d := 100 * TwoAt(s, 0) + TwoAt(s, 2), TwoAt(s, 5), TwoAt(s, 8);
      if 1 <= m <= 12 && 1 <= d <= 31 then Some(DayNumber(Date(y, m, d))) else None
    else if ExpandedShaped(s) then
      var y, m := 10_000 * TwoAt(s, 1) + 100 * TwoAt(s, 3) + TwoAt(s, 5), TwoAt(s, 8);
      if 1 <= m <= 12 then Some(DayNumber(Date(y, m, 1))) else None
    else None
  }

  predicate IsValidYmd(s: string) { YmdShaped(s) && ParseDay(s).Some? && Ymd(ParseDay(s).value) == s }

  /** The number two digits write. */
  function Reads(a: char, b: char): int { 10 * (a as int - '0' as int) + (b as int - '0' as int) }

  /** Which strings parse: four, two and two digits with dashes, or a plus sign, six and two digits, with a month from 1 to 12. */
  lemma {:induction false} ParsesExactly(s: string)
    requires |s| == 10
    ensures ParseDay(s).Some? <==>
              || (&& s[4] == '-' && s[7] == '-' && (forall i | 0 <= i < 10 && i != 4 && i != 7 :: s[i] in "0123456789")
                  && 1 <= Reads(s[5], s[6]) <= 12 && 1 <= Reads(s[8], s[9]) <= 31)
              || (&& s[0] == '+' && s[7] == '-' && (forall i | 1 <= i < 10 && i != 7 :: s[i] in "0123456789")
                  && 1 <= Reads(s[8], s[9]) <= 12)
  {
    hide DayNumber;
    forall i | 0 <= i < 10 ensures s[i] in "0123456789" <==> IsDigit(s[i]) {
      Ten(s[i]);
    }
  }

  /** None is the RangeError of toISOString on an invalid date. */
  function AddDaysYmd(s: string, days: int): Option<string> {
    var n := ParseDay(s);
    if n.Some? && n.value + days >= 0 then Some(Ymd(n.value + days)) else None
  }

  lemma {:induction false} YearInRange(n: nat)
    ensures n <= LAST_DAY <==> DateOf(n).year < 10_000
  {
    hide DateOf;
    YearOfDate(DateOf(n));
  }

  lemma {:induction false} YearOfDate(t: Date)
    requires ValidDate(t)
    ensures DayNumber(t) <= LAST_DAY <==> t.year < 10_000
  {
    var y := t.year;
    YearStep(y);
    if y < 10_000 {
      YearsGrow(y + 1, 10_000);
      assert DaysBeforeMonth(Leap(y), t.month + 1) <= YearLength(y);
    } else {
      YearsGrow(10_000, y);
    }
  }

  lemma {:induction false} SliceShape(t: Date)
    requires ValidDate(t) && t.year < 10_000
    ensures YmdShaped(Slice(t)) && ParseDay(Slice(t)) == Some(DayNumber(t))
  {
    hide Two, TwoAt, DigitsAt, DayNumber, DaysBeforeMonth, Leap;
    DayFits(t);
    SliceParts(t);
    var s := Slice(t);
    TwoRead(s, 0, t.year / 100);
    TwoRead(s, 2, t.year % 100);
    TwoRead(s, 5, t.month);
    TwoRead(s, 8, t.day);
    DigitsJoin(s, 0);
    assert t.year == 100 * (t.year / 100) + t.year % 100;
  }

  lemma {:induction false} SliceParts(t: Date)
    requires ValidDate(t) && t.year < 10_000
    ensures var s := Slice(t);
            && |s| == 10 && s[4] == '-' && s[7] == '-'
            && s[0..2] == Two(t.year / 100) && s[2..4] == Two(t.year % 100)
            && t.day < 100 && s[5..7] == Two(t.month) && s[8..10] == Two(t.day)
  {
    hide Two;
    DayFits(t);
  }

  lemma {:induction false} DayFits(t: Date)
    requires ValidDate(t)
    ensures 1 <= t.month <= 12 && 1 <= t.day <= 31
  {
  }

  /** The two digits of a number, read back where they stand. */
  lemma {:induction false} TwoRead(s: string, i: nat, n: nat)
    requires n < 100 && i + 2 <= |s| && s[i..i + 2] == Two(n)
    ensures DigitsAt(s, i, i + 2) && TwoAt(s, i) == n
  {
    assert s[i] == s[i..i + 2][0] && s[i + 1] == s[i..i + 2][1];
  }

  lemma {:induction false} DigitsJoin(s: string, i: nat)
    requires i + 4 <= |s| && DigitsAt(s, i, i + 2) && DigitsAt(s, i + 2, i + 4)
    ensures DigitsAt(s, i, i + 4)
  {
  }

  lemma {:induction false} YmdShape(n: nat)
    requires n <= LAST_DAY
    ensures YmdShaped(Ymd(n)) && ParseDay(Ymd(n)) == Some(n)
  {
    YearInRange(n);
    SliceShape(DateOf(n));
  }

  /** A string is accepted exactly when it is the name of a day of the years 0000 to 9999. */
  lemma {:induction false} ValidYmdExactly(s: string)
    ensures IsValidYmd(s) <==> exists n: nat :: n <= LAST_DAY && s == Ymd(n)
  {
    if IsValidYmd(s) {
      var _ := ValidDay(s);
    }
    if n: nat :| n <= LAST_DAY && s == Ymd(n) {
      YmdShape(n);
    }
  }

  lemma {:induction false} ValidDay(s: string) returns (n: nat)
    requires IsValidYmd(s)
    ensures ParseDay(s) == Some(n) && n <= LAST_DAY && s == Ymd(n)
  {
    n := ParseDay(s).value;
    YearInRange(n);
    LateSlice(DateOf(n));
  }

  lemma {:induction false} LateSlice(t: Date)
    requires ValidDate(t)
    ensures t.year >= 10_000 ==> !YmdShaped(Slice(t))
  {
    assert t.year >= 10_000 ==> Slice(t)[0] == '+';
  }

  // -------------------------------------------------------------------- string order

  lemma {:induction false} LessFields(a: string, b: string, s: string, t: string)
    requires |a| == |b|
    ensures Less(a + s, b + t) <==> Less(a, b) || (a == b && Less(s, t))
    decreases |a|
  {
    if a == [] {
      assert a + s == s && b + t == t;
    } else {
      LessFields(a[1..], b[1..], s, t);
      assert (a + s)[1..] == a[1..] + s && (b + t)[1..] == b[1..] + t;
      assert a == [a[0]] + a[1..] && b == [b[0]] + b[1..];
    }
  }

  lemma {:induction false} OneOrder(c: char, d: char)
    ensures Less([c], [d]) <==> c < d
    ensures [c] == [d] <==> c == d
  {
    assert [c][1..] == [] && [d][1..] == [];
    assert [c][0] == c && [d][0] == d;
  }

  lemma {:induction false} TwoOrder(m: nat, n: nat)
    requires m < 100 && n < 100
    ensures Less(Two(m), Two(n)) <==> m < n
    ensures Two(m) == Two(n) <==> m == n
  {
    OneOrder(Digit(m / 10), Digit(n / 10));
    OneOrder(Digit(m % 10), Digit(n % 10));
    LessFields([Digit(m / 10)], [Digit(n / 10)], [Digit(m % 10)], [Digit(n % 10)]);
    assert Two(m) == [Digit(m / 10)] + [Digit(m % 10)] && Two(n) == [Digit(n / 10)] + [Digit(n % 10)];
    assert Two(m)[0] == Digit(m / 10) && Two(m)[1] == Digit(m % 10);
    assert Two(n)[0] == Digit(n / 10) && Two(n)[1] == Digit(n % 10);
  }

  lemma {:induction false} FourOrder(m: nat, n: nat)
    requires m < 10_000 && n < 10_000
    ensures Less(Four(m), Four(n)) <==> m < n
    ensures Four(m) == Four(n) <==> m == n
  {
    TwoOrder(m / 100, n / 100);
    TwoOrder(m % 100, n % 100);
    LessFields(Two(m / 100), Two(n / 100), Two(m % 100), Two(n % 100));
    assert Four(m)[..2] == Two(m / 100) && Four(m)[2..] == Two(m % 100);
    assert Four(n)[..2] == Two(n / 100) && Four(n)[2..] == Two(n % 100);
  }

  lemma {:induction false} LessAfterDash(s: string, t: string)
    ensures Less("-" + s, "-" + t) <==> Less(s, t)
  {
    LessFields("-", "-", s, t);
    LessIrreflexive("-");
  }

  lemma {:induction false} MonthDayOrder(a: Date, b: Date)
    requires a.month < 100 && b.month < 100 && a.day < 100 && b.day < 100
    ensures Less(Two(a.month) + ("-" + Two(a.day)), Two(b.month) + ("-" + Two(b.day))) <==>
            a.month < b.month || (a.month == b.month && a.day < b.day)
  {
    TwoOrder(a.month, b.month);
    TwoOrder(a.day, b.day);
    LessAfterDash(Two(a.day), Two(b.day));
    LessFields(Two(a.month), Two(b.month), "-" + Two(a.day), "-" + Two(b.day));
  }

  lemma {:induction false} SliceOrder(a: Date, b: Date)
    requires ValidDate(a) && ValidDate(b) && a.year < 10_000 && b.year < 10_000
    ensures Less(Slice(a), Slice(b)) <==> Earlier(a, b)
  {
    FourOrder(a.year, b.year);
    MonthDayOrder(a, b);
    var x, y := Two(a.month) + ("-" + Two(a.day)), Two(b.month) + ("-" + Two(b.day));
    assert Slice(a) == Four(a.year) + ("-" + x) && Slice(b) == Four(b.year) + ("-" + y);
    LessAfterDash(x, y);
    LessFields(Four(a.year), Four(b.year), "-" + x, "-" + y);
  }

  /** Comparing date strings compares the days, for all years up to 9999. */
  lemma {:induction false} StringOrderIsDayOrder(m: nat, n: nat)
    requires m <= LAST_DAY && n <= LAST_DAY
    ensures Less(Ymd(m), Ymd(n)) <==> m < n
    ensures Ymd(m) == Ymd(n) <==> m == n
  {
    YearInRange(m);
    YearInRange(n);
    SliceOrder(DateOf(m), DateOf(n));
    DateOrder(DateOf(m), DateOf(n));
    YmdShape(m);
    YmdShape(n);
  }

  // --------------------------------------------------------------------- daysInPeriod

  /** The names of the days from one number to another. */
  function Days(from: nat, until: int): (ds: seq<string>)
    ensures |ds| == (if from <= until then until - from + 1 else 0)
    decreases until
  {
    if until < from then [] else Days(from, until - 1) + [Ymd(until)]
  }

  lemma {:induction false} DaysSteps(from: nat, n: nat)
    ensures Days(from, from - 1) == []
    ensures n < from ==> Days(from, n) == []
    ensures from <= n ==> Days(from, n) == Days(from, n - 1) + [Ymd(n)]
  {
    hide Ymd;
  }

  lemma {:induction false} DaysAt(from: nat, until: int, i: nat)
    requires i < |Days(from, until)|
    ensures Days(from, until)[i] == Ymd(from + i)
    decreases until
  {
    hide Ymd;
    if from + i < until {
      DaysAt(from, until - 1, i);
    }
  }

  lemma {:induction false} NextDay(n: nat)
    requires n <= LAST_DAY
    ensures AddDaysYmd(Ymd(n), 1) == Some(Ymd(n + 1))
  {
    hide Ymd, ParseDay;
    YmdShape(n);
  }

  /** The loop lists exactly the consecutive days; it needs an end before 9999-12-31 (see NeverEnds). */
  method DaysInPeriod(fromYmd: string, toYmd: string) returns (out: seq<string>)
    requires IsValidYmd(fromYmd) && IsValidYmd(toYmd) && ParseDay(toYmd).value != LAST_DAY
    ensures out == Days(ParseDay(fromYmd).value, ParseDay(toYmd).value)
    ensures out != [] <==> !Less(toYmd, fromYmd)
    ensures out != [] ==> out[0] == fromYmd && out[|out| - 1] == toYmd
  {
    hide *;
    ghost var from := ValidDay(fromYmd);
    ghost var until := ValidDay(toYmd);
    DaysSteps(from, until);
    out := [];
    var d := fromYmd;
    StringOrderIsDayOrder(until, from);
    ghost var n := from;
    while !Less(toYmd, d)
      invariant from <= n <= LAST_DAY && d == Ymd(n) && out == Days(from, n - 1)
      invariant Less(toYmd, d) <==> until < n
      invariant from <= until ==> n <= until + 1
      invariant until < from ==> n == from
      decreases 1 + until - n
    {
      NextDay(n);
      DaysSteps(from, n);
      StringOrderIsDayOrder(until, n + 1);
      out := out + [d];
      d := AddDaysYmd(d, 1).value;
      n := n + 1;
    }
    if from <= until {
      DaysAt(from, until, 0);
      DaysAt(from, until, until - from);
    }
  }

  /** The day the loop looks at after n turns. */
  function Turn(fromYmd: string, n: nat): Option<string> {
    if n == 0 then Some(fromYmd)
    else
      var d := Turn(fromYmd, n - 1);
      if d.Some? then AddDaysYmd(d.value, 1) else None
  }

  const LAST := Date(9999, 12, 31)
  const BEYOND := Date(10_000, 1, 1)

  lemma {:induction false} DateUnique(n: nat, t: Date)
    requires ValidDate(t) && DayNumber(t) == n
    ensures DateOf(n) == t
  {
    hide DateOf;
    DateOrder(DateOf(n), t);
  }

  lemma {:induction false} EndDates()
    ensures ValidDate(LAST) && DayNumber(LAST) == LAST_DAY
    ensures ValidDate(BEYOND) && DayNumber(BEYOND) == LAST_DAY + 1
    ensures ValidDate(Date(10_000, 1, 2)) && DayNumber(Date(10_000, 1, 2)) == LAST_DAY + 2
  {
  }

  lemma {:induction false} SlicesAtEnd()
    ensures Slice(LAST) == "9999-12-31"
    ensures Slice(BEYOND) == Slice(Date(10_000, 1, 2)) == "+010000-01"
  {
    TenThousand();
    TwoDigits();
    hide Two, PadStart, Decimal;
    assert "+" + "010000" + "-" + "01" == "+010000-01";
    assert "99" + "99" + "-" + "12" + "-" + "31" == "9999-12-31";
  }

  lemma {:induction false} TenThousand()
    ensures PadStart(Decimal(10_000), 6) == "010000"
  {
    assert Decimal(1) == "1" && Decimal(10) == "10" && Decimal(100) == "100" && Decimal(1000) == "1000";
    assert Decimal(10_000) == "10000";
    assert Zeros(1) == "0";
  }

  lemma {:induction false} TwoDigits()
    ensures Two(1) == "01" && Two(12) == "12" && Two(31) == "31" && Two(99) == "99"
  {
  }

  lemma {:induction false} BeyondParses()
    ensures ParseDay("+010000-01") == Some(DayNumber(BEYOND))
    ensures !Less("9999-12-31", "+010000-01")
  {
    var s := "+010000-01";
    assert |s| == 10 && s[0] == '+' && s[1] == '0' && s[2] == '1' && s[3] == '0' && s[4] == '0' && s[5] == '0' && s[6] == '0';
    assert s[7] == '-' && s[8] == '0' && s[9] == '1';
    assert !YmdShaped(s) && ExpandedShaped(s);
    assert TwoAt(s, 1) == 1 && TwoAt(s, 3) == 0 && TwoAt(s, 5) == 0 && TwoAt(s, 8) == 1;
  }

  /** Past 9999-12-31 the loop's day is stuck at a string below every date of the years up to 9999. */
  lemma {:induction false} PastTheEnd(last: nat)
    requires last == LAST_DAY
    ensures Ymd(last + 1) == "+010000-01" && AddDaysYmd(Ymd(last + 1), 1) == Some(Ymd(last + 1))
    ensures !Less(Ymd(last), Ymd(last + 1))
  {
    hide DateOf;
    EndDates();
    DateUnique(last, LAST);
    DateUnique(last + 1, BEYOND);
    DateUnique(last + 2, Date(10_000, 1, 2));
    SlicesAtEnd();
    BeyondParses();
  }

  /** With the end at 9999-12-31 the loop never sees a day past it: after any number of turns it goes on. */
  lemma {:induction false} NeverEnds(from: nat, last: nat, n: nat)
    requires from <= last == LAST_DAY
    ensures Turn(Ymd(from), n) == Some(Ymd(if from + n <= last then from + n else last + 1))
    ensures !Less(Ymd(last), Turn(Ymd(from), n).value)
    decreases n
  {
    hide Ymd, ParseDay;
    PastTheEnd(last);
    if n > 0 {
      NeverEnds(from, last, n - 1);
      if from + n - 1 <= last {
        YmdShape(from + n - 1);
      }
    }
    if from + n <= last {
      StringOrderIsDayOrder(last, from + n);
    }
  }

  // --------------------------------------------------------------------- instants

  /** The business-local day an instant falls on. */
  function DayOf(ms: int, offset: int): int { (ms + offset * 60_000) / DAY_MS + EPOCH }

  function YmdInBusinessTime(ms: int, offset: int): string
    requires DayOf(ms, offset) >= 0
  {
    Ymd(DayOf(ms, offset))
  }

  /** First instant of a named day; None is an invalid date. */
  function StartOfBusinessDay(ymd: string, offset: int): Option<int> {
    var n := ParseDay(ymd);
    if n.Some? then Some((n.value - EPOCH) * DAY_MS - offset * 60_000) else None
  }

  /** Last millisecond of a named day. */
  function EndOfBusinessDay(ymd: string, offset: int): Option<int> {
    var start := StartOfBusinessDay(ymd, offset);
    if start.Some? then Some(start.value + DAY_MS - 1) else None
  }

  function StartOf(n: int, offset: int): int { (n - EPOCH) * DAY_MS - offset * 60_000 }

  lemma {:induction false} StartAndEnd(n: nat, offset: int)
    requires n <= LAST_DAY
    ensures StartOfBusinessDay(Ymd(n), offset) == Some(StartOf(n, offset))
    ensures EndOfBusinessDay(Ymd(n), offset) == Some(StartOf(n + 1, offset) - 1)
  {
    hide Ymd, ParseDay;
    YmdShape(n);
  }

  lemma {:induction false} InDay(n: int, ms: int, offset: int)
    ensures StartOf(n, offset) <= ms < StartOf(n + 1, offset) <==> DayOf(ms, offset) == n
  {
    var t := ms + offset * 60_000;
    assert t == DAY_MS * (t / DAY_MS) + t % DAY_MS;
  }

  lemma {:induction false} LateNames(m: nat, n: nat)
    requires m <= LAST_DAY < n
    ensures Ymd(m) != Ymd(n)
  {
    hide DateOf;
    YearInRange(n);
    YmdShape(m);
    LateSlice(DateOf(n));
  }

  /** An instant lies in a named day's interval exactly when the business calendar gives that name. */
  lemma {:induction false} InstantInDay(n: nat, ms: int, offset: int)
    requires n <= LAST_DAY && DayOf(ms, offset) >= 0
    ensures StartOfBusinessDay(Ymd(n), offset).Some? && EndOfBusinessDay(Ymd(n), offset).Some?
    ensures StartOfBusinessDay(Ymd(n), offset).value <= ms <= EndOfBusinessDay(Ymd(n), offset).value <==>
            YmdInBusinessTime(ms, offset) == Ymd(n)
  {
    hide Ymd, ParseDay;
    StartAndEnd(n, offset);
    InDay(n, ms, offset);
    var d := DayOf(ms, offset);
    if d <= LAST_DAY {
      StringOrderIsDayOrder(n, d);
    } else {
      LateNames(n, d);
    }
  }

  /** The day of a list whose interval holds an instant. */
  predicate Covers(ds: seq<string>, i: nat, ms: int, offset: int) {
    && i < |ds| && StartOfBusinessDay(ds[i], offset).Some? && EndOfBusinessDay(ds[i], offset).Some?
    && StartOfBusinessDay(ds[i], offset).value <= ms <= EndOfBusinessDay(ds[i], offset).value
  }

  lemma {:induction false} CoversDay(from: nat, until: nat, i: nat, ms: int, offset: int)
    requires from <= until <= LAST_DAY
    ensures Covers(Days(from, until), i, ms, offset) <==> i <= until - from && DayOf(ms, offset) == from + i
  {
    hide Ymd, ParseDay, Days;
    if i <= until - from {
      DaysAt(from, until, i);
      StartAndEnd(from + i, offset);
      InDay(from + i, ms, offset);
    }
  }

  /**
   * Tiling, for every offset: the listed days' intervals follow one another
   * without gap or overlap, start where the period starts and end where it
   * ends, and every instant of the period lies in exactly one of them.
   */
  lemma {:induction false} DaysTilePeriod(from: nat, until: nat, offset: int, ms: int)
    requires from <= until <= LAST_DAY
    ensures var ds := Days(from, until);
            && |ds| == until - from + 1
            && StartOfBusinessDay(ds[0], offset) == Some(StartOf(from, offset))
            && EndOfBusinessDay(ds[|ds| - 1], offset) == Some(StartOf(until + 1, offset) - 1)
            && (StartOf(from, offset) <= ms < StartOf(until + 1, offset) <==> exists i: nat :: Covers(ds, i, ms, offset))
            && (forall i: nat, j: nat | Covers(ds, i, ms, offset) && Covers(ds, j, ms, offset) :: i == j)
  {
    hide Ymd, ParseDay, Covers;
    var ds := Days(from, until);
    DaysAt(from, until, 0);
    DaysAt(from, until, until - from);
    StartAndEnd(from, offset);
    StartAndEnd(until, offset);
    forall i: nat ensures Covers(ds, i, ms, offset) <==> i <= until - from && DayOf(ms, offset) == from + i {
      CoversDay(from, until, i, ms, offset);
    }
    InSpan(from, until, ms, offset);
    if from <= DayOf(ms, offset) <= until {
      assert Covers(ds, DayOf(ms, offset) - from, ms, offset);
    }
  }

  lemma {:induction false} InSpan(from: int, until: int, ms: int, offset: int)
    ensures StartOf(from, offset) <= ms < StartOf(until + 1, offset) <==> from <= DayOf(ms, offset) <= until
  {
    var t := ms + offset * 60_000;
    assert t == DAY_MS * (t / DAY_MS) + t % DAY_MS;
  }

  // -------------------------------------------------------- resolveConsolidationPeriod

  datatype Period = Period(range: string, fromYmd: string, toYmd: string, first: int, last: int)
  datatype RangeError = MissingDates | BadFormat | StartAfterEnd | TooLarge | UnknownRange

  /** The range asked for: named, custom when both dates are there, otherwise the last seven days. */
  function RangeName(range: Option<string>, dateFrom: Option<string>, dateTo: Option<string>): string {
    if range.Some? && Trim(range.value) != "" then Trim(range.value)
    else if Given(dateFrom) && Given(dateTo) then "custom" else "last7"
  }

  /** The dates name days of the calendar, in order, at most 366 of them. */
  ghost predicate CustomSpan(dateFrom: Option<string>, dateTo: Option<string>, from: nat, until: nat) {
    && from <= until <= LAST_DAY && until - from < MAX_RANGE_DAYS
    && dateFrom == Some(Ymd(from)) && dateTo == Some(Ymd(until))
  }

  /** The days a range stands for. */
  ghost predicate SpanOf(name: string, dateFrom: Option<string>, dateTo: Option<string>, today: int, from: nat, until: nat) {
    || (name == "today" && from == until == today)
    || (name == "yesterday" && from == until == today - 1)
    || (name == "last7" && until == today && until - from + 1 == 7)
    || (name == "last30" && until == today && until - from + 1 == 30)
    || (name == "custom" && CustomSpan(dateFrom, dateTo, from, until))
  }

  lemma {:induction false} DaysBack(n: nat, k: int)
    requires 0 <= k <= n <= LAST_DAY
    ensures AddDaysYmd(Ymd(n), -k) == Some(Ymd(n - k))
  {
    hide Ymd, ParseDay;
    YmdShape(n);
  }

  lemma {:induction false} NoEmptySpan(dateFrom: Option<string>, dateTo: Option<string>)
    requires !Given(dateFrom) || !Given(dateTo)
    ensures forall from: nat, until: nat :: !CustomSpan(dateFrom, dateTo, from, until)
  {
    hide Ymd;
    forall from: nat, until: nat ensures !CustomSpan(dateFrom, dateTo, from, until) {
      if CustomSpan(dateFrom, dateTo, from, until) {
        YmdShape(from);
        YmdShape(until);
      }
    }
  }

  lemma {:induction false} SpansAreValid(dateFrom: Option<string>, dateTo: Option<string>)
    ensures forall from: nat, until: nat | CustomSpan(dateFrom, dateTo, from, until) ::
              && IsValidYmd(dateFrom.value) && IsValidYmd(dateTo.value) && !Less(dateTo.value, dateFrom.value)
              && ParseDay(dateFrom.value) == Some(from) && ParseDay(dateTo.value) == Some(until)
  {
    hide Ymd, ParseDay, Less;
    forall from: nat, until: nat | CustomSpan(dateFrom, dateTo, from, until)
      ensures IsValidYmd(dateFrom.value) && IsValidYmd(dateTo.value) && !Less(dateTo.value, dateFrom.value)
      ensures ParseDay(dateFrom.value) == Some(from) && ParseDay(dateTo.value) == Some(until)
    {
      YmdShape(from);
      YmdShape(until);
      StringOrderIsDayOrder(until, from);
    }
  }

  lemma {:induction false} SpanInMs(a: string, b: string, from: nat, until: nat)
    requires ParseDay(a) == Some(from) && ParseDay(b) == Some(until)
    ensures StartOfBusinessDay(a, 0).Some? && StartOfBusinessDay(b, 0).Some?
    ensures StartOfBusinessDay(b, 0).value - StartOfBusinessDay(a, 0).value == 86_400_000 * (until - from)
  {
    hide ParseDay;
  }

  /** Both dates of a custom range, checked in the source's order. */
  method CustomDates(dateFrom: Option<string>, dateTo: Option<string>) returns (r: Result<(string, string), RangeError>)
    ensures r.Ok? <==> exists from: nat, until: nat :: CustomSpan(dateFrom, dateTo, from, until)
    ensures r.Ok? ==> dateFrom == Some(r.value.0) && dateTo == Some(r.value.1)
    ensures r.Err? ==> r.error != UnknownRange
    ensures r == Err(MissingDates) <==> dateFrom.None? || dateFrom.value == "" || dateTo.None? || dateTo.value == ""
    ensures r == Err(BadFormat) <==> dateFrom.Some? && dateFrom.value != "" && dateTo.Some? && dateTo.value != ""
                                     && !(IsValidYmd(dateFrom.value) && IsValidYmd(dateTo.value))
    ensures r.Err? && r.error !in {MissingDates, BadFormat} ==>
              && StartOfBusinessDay(dateFrom.value, 0).Some? && StartOfBusinessDay(dateTo.value, 0).Some?
              && var span := StartOfBusinessDay(dateTo.value, 0).value - StartOfBusinessDay(dateFrom.value, 0).value;
                 && (r.error == StartAfterEnd <==> span < 0) && (r.error == TooLarge <==> span >= 366 * 86_400_000)
    ensures r.Ok? ==>
              && IsValidYmd(r.value.0) && IsValidYmd(r.value.1)
              && StartOfBusinessDay(r.value.0, 0).Some? && StartOfBusinessDay(r.value.1, 0).Some?
              && 0 <= StartOfBusinessDay(r.value.1, 0).value - StartOfBusinessDay(r.value.0, 0).value < 366 * 86_400_000
  {
    hide Ymd, ParseDay, Less, StartOfBusinessDay, IsValidYmd;
    if !Given(dateFrom) || !Given(dateTo) {
      NoEmptySpan(dateFrom, dateTo);
      return Err(MissingDates);
    }
    SpansAreValid(dateFrom, dateTo);
    if !IsValidYmd(dateFrom.value) || !IsValidYmd(dateTo.value) {
      return Err(BadFormat);
    }
    ghost var from := ValidDay(dateFrom.value);
    ghost var until := ValidDay(dateTo.value);
    StringOrderIsDayOrder(until, from);
    SpanInMs(dateFrom.value, dateTo.value, from, until);
    if Less(dateTo.value, dateFrom.value) {
      return Err(StartAfterEnd);
    }
    if ParseDay(dateTo.value).value - ParseDay(dateFrom.value).value + 1 > MAX_RANGE_DAYS {
      return Err(TooLarge);
    }
    assert CustomSpan(dateFrom, dateTo, from, until);
    r := Ok((dateFrom.value, dateTo.value));
  }

  /** The dates of a range by the local clock: today's, yesterday's, six or twenty-nine days back, or the ones given. */
  ghost predicate RangeDates(p: Period, dateFrom: Option<string>, dateTo: Option<string>, now: int, offset: int)
    requires 29 <= DayOf(now, offset)
  {
    DaysEarlier(now, offset, 1);
    DaysEarlier(now, offset, 6);
    DaysEarlier(now, offset, 29);
    || (p.range == "today" && p.fromYmd == p.toYmd == YmdInBusinessTime(now, offset))
    || (p.range == "yesterday" && p.fromYmd == p.toYmd == YmdInBusinessTime(now - 86_400_000, offset))
    || (p.range == "last7" && p.fromYmd == YmdInBusinessTime(now - 6 * 86_400_000, offset) && p.toYmd == YmdInBusinessTime(now, offset))
    || (p.range == "last30" && p.fromYmd == YmdInBusinessTime(now - 29 * 86_400_000, offset) && p.toYmd == YmdInBusinessTime(now, offset))
    || (p.range == "custom" && dateFrom == Some(p.fromYmd) && dateTo == Some(p.toYmd))
  }

  /** The error of a range that stands for no days: an unknown name, or the first check its dates fail. */
  predicate RangeRefused(name: string, dateFrom: Option<string>, dateTo: Option<string>, e: RangeError) {
    if name != "custom" then
      e == UnknownRange && name != "today" && name != "yesterday" && name != "last7" && name != "last30"
    else if dateFrom.None? || dateFrom.value == "" || dateTo.None? || dateTo.value == "" then e == MissingDates
    else if !IsValidYmd(dateFrom.value) || !IsValidYmd(dateTo.value) then e == BadFormat
    else e == StartAfterEnd || e == TooLarge
  }

  lemma {:induction false} DaysEarlier(ms: int, offset: int, k: nat)
    ensures DayOf(ms - k * 86_400_000, offset) == DayOf(ms, offset) - k
  {
  }

  lemma {:induction false} SpanDates(p: Period, dateFrom: Option<string>, dateTo: Option<string>, now: int, offset: int, from: nat, until: nat)
    requires 29 <= DayOf(now, offset) && SpanOf(p.range, dateFrom, dateTo, DayOf(now, offset), from, until)
    requires p.fromYmd == Ymd(from) && p.toYmd == Ymd(until)
    ensures RangeDates(p, dateFrom, dateTo, now, offset)
  {
    hide Ymd, DayOf;
    DaysEarlier(now, offset, 1);
    DaysEarlier(now, offset, 6);
    DaysEarlier(now, offset, 29);
  }

  /**
   * A range resolves exactly when it stands for some days, and then to the
   * span of instants from the first of those days to the last.
   */
  method ResolveConsolidationPeriod(range: Option<string>, dateFrom: Option<string>, dateTo: Option<string>, now: int, offset: int)
    returns (r: Result<Period, RangeError>)
    requires 29 <= DayOf(now, offset) <= LAST_DAY
    ensures var name := if range.Some? && Trim(range.value) != "" then Trim(range.value)
                        else if dateFrom.Some? && dateFrom.value != "" && dateTo.Some? && dateTo.value != "" then "custom"
                        else "last7";
            && (r.Err? ==> RangeRefused(name, dateFrom, dateTo, r.error))
            && (r.Ok? <==> exists from: nat, until: nat :: SpanOf(name, dateFrom, dateTo, DayOf(now, offset), from, until))
            && (r.Ok? ==> exists from: nat, until: nat ::
                  SpanOf(name, dateFrom, dateTo, DayOf(now, offset), from, until) &&
                  r.value == Period(name, Ymd(from), Ymd(until), StartOf(from, offset), StartOf(until + 1, offset) - 1))
    ensures r.Ok? ==> RangeDates(r.value, dateFrom, dateTo, now, offset)
    ensures r.Ok? ==> Some(r.value.first) == StartOfBusinessDay(r.value.fromYmd, offset)
                      && Some(r.value.last) == EndOfBusinessDay(r.value.toYmd, offset)
  {
    hide Ymd, ParseDay, IsValidYmd, StartOf, DayOf, Trim, RangeDates;
    var name := RangeName(range, dateFrom, dateTo);
    var today := YmdInBusinessTime(now, offset);
    ghost var n: nat := DayOf(now, offset);
    ghost var from: nat, until: nat := n, n;
    var fromYmd, toYmd := today, today;
    if name == "today" {
    } else if name == "yesterday" {
      DaysBack(n, 1);
      from, until := n - 1, n - 1;
      fromYmd := AddDaysYmd(today, -1).value;
      toYmd := fromYmd;
    } else if name == "last7" {
      DaysBack(n, 6);
      from := n - 6;
      fromYmd := AddDaysYmd(today, -6).value;
    } else if name == "last30" {
      DaysBack(n, 29);
      from := n - 29;
      fromYmd := AddDaysYmd(today, -29).value;
    } else if name == "custom" {
      var dates := CustomDates(dateFrom, dateTo);
      if dates.Err? {
        return Err(dates.error);
      }
      fromYmd, toYmd := dates.value.0, dates.value.1;
      from, until :| CustomSpan(dateFrom, dateTo, from, until);
    } else {
      return Err(UnknownRange);
    }
    assert SpanOf(name, dateFrom, dateTo, n, from, until);
    StartAndEnd(from, offset);
    StartAndEnd(until, offset);
    r := Ok(Period(name, fromYmd, toYmd, StartOfBusinessDay(fromYmd, offset).value, EndOfBusinessDay(toYmd, offset).value));
    SpanDates(r.value, dateFrom, dateTo, now, offset, from, until);
  }
}
