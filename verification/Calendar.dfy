/** The calendar against a closed form, and what a printed time reads back as. */
module Calendar {
  import opened Wrappers
  import opened JsonParser
  import opened UtcTime

  // ---------------------------------------------------------------- dates

  function DaysBeforeYear(year: nat): int
    requires year >= 1
  {
    365 * (year - 1) + (year - 1) / 4 - (year - 1) / 100 + (year - 1) / 400
  }

  const DAYS_BEFORE_MONTH: seq<int> := [0, 31, 59, 90, 120, 151, 181, 212, 243, 273, 304, 334]

  predicate HasLeapDay(year: nat) {
    year % 4 == 0 && (year % 100 == 0 ==> year % 400 == 0)
  }

  function DaysBeforeMonth(year: nat, month: nat): int
    requires 1 <= month <= 12
  {
    DAYS_BEFORE_MONTH[month - 1] + (if month > 2 && HasLeapDay(year) then 1 else 0)
  }

  /** Days from 0001-01-01 to a date of the proleptic Gregorian calendar. */
  function Ordinal(d: Date): int
    requires d.year >= 1
  {
    DaysBeforeYear(d.year) + DaysBeforeMonth(d.year, d.month) + d.day - 1
  }

  predicate OnCalendar(d: Date) {
    d.year >= 1 && d.day <= DaysIn(d.year, d.month)
  }

  lemma FloorSteps(p: nat)
    ensures (p + 1) / 4 == p / 4 + (if (p + 1) % 4 == 0 then 1 else 0)
    ensures (p + 1) / 100 == p / 100 + (if (p + 1) % 100 == 0 then 1 else 0)
    ensures (p + 1) / 400 == p / 400 + (if (p + 1) % 400 == 0 then 1 else 0)
  {
  }

  lemma Multiples(year: nat)
    ensures year % 400 == 0 ==> year % 100 == 0
    ensures year % 100 == 0 ==> year % 4 == 0
  {
    var q, r := year / 400, year % 400;
    assert year == 400 * q + r;
    RemaindersOf(q, r);
  }

  lemma RemaindersOf(q: nat, r: nat)
    requires r < 400
    ensures (400 * q + r) % 100 == r % 100 && (400 * q + r) % 4 == r % 4
  {
    var a, b := r / 100, r / 4;
    assert 400 * q + r == 100 * (4 * q + a) + r % 100;
    assert 400 * q + r == 4 * (100 * q + b) + r % 4;
  }

  lemma YearLength(year: nat)
    requires year >= 1
    ensures DaysBeforeYear(year + 1) == DaysBeforeYear(year) + (if HasLeapDay(year) then 366 else 365)
  {
    FloorSteps(year - 1);
    Multiples(year);
  }

  lemma MonthLength(year: nat, month: nat)
    requires 1 <= month <= 12
    ensures month < 12 ==> DaysBeforeMonth(year, month + 1) == DaysBeforeMonth(year, month) + DaysIn(year, month)
    ensures month == 12 ==> DaysBeforeMonth(year, 12) + DaysIn(year, 12) == if HasLeapDay(year) then 366 else 365
  {
  }

  lemma NextDayIsNext(d: Date)
    requires OnCalendar(d)
    ensures OnCalendar(NextDay(d)) && Ordinal(NextDay(d)) == Ordinal(d) + 1
  {
    YearLength(d.year);
    MonthLength(d.year, d.month);
  }

  /** The `n`-th day is the date whose ordinal is `n`. */
  lemma {:induction false} DateOfHasOrdinal(n: nat)
    ensures OnCalendar(DateOf(n)) && Ordinal(DateOf(n)) == n
  {
    if n > 0 {
      DateOfHasOrdinal(n - 1);
      hide NextDay;
      NextDayIsNext(DateOf(n - 1));
    }
  }

  lemma {:induction false} YearsIncrease(a: nat, b: nat)
    requires 1 <= a < b
    ensures DaysBeforeYear(a) + (if HasLeapDay(a) then 366 else 365) <= DaysBeforeYear(b)
  {
    hide DaysBeforeYear;
    hide HasLeapDay;
    YearLength(b - 1);
    if a < b - 1 { YearsIncrease(a, b - 1); }
  }

  lemma WithinYear(d: Date)
    requires OnCalendar(d)
    ensures 0 <= DaysBeforeMonth(d.year, d.month) + d.day - 1 < if HasLeapDay(d.year) then 366 else 365
  {
    MonthLength(d.year, d.month);
  }

  lemma MonthsIncrease(year: nat, a: nat, b: nat)
    requires 1 <= a < b <= 12
    ensures DaysBeforeMonth(year, a) + DaysIn(year, a) <= DaysBeforeMonth(year, b)
  {
  }

  lemma OrdinalDecides(d: Date, e: Date)
    requires OnCalendar(d) && OnCalendar(e) && Ordinal(d) == Ordinal(e)
    ensures d == e
  {
    hide DaysBeforeYear;
    hide DaysBeforeMonth;
    WithinYear(d);
    WithinYear(e);
    if d.year < e.year { YearsIncrease(d.year, e.year); }
    if e.year < d.year { YearsIncrease(e.year, d.year); }
    if d.month < e.month { MonthsIncrease(d.year, d.month, e.month); }
    if e.month < d.month { MonthsIncrease(d.year, e.month, d.month); }
  }

  /** Every date of the calendar comes up, at its own ordinal. */
  lemma DateOfOrdinal(d: Date)
    requires OnCalendar(d)
    ensures Ordinal(d) >= 0 && DateOf(Ordinal(d)) == d
  {
    WithinYear(d);
    assert DaysBeforeYear(d.year) >= 0;
    DateOfHasOrdinal(Ordinal(d));
    OrdinalDecides(DateOf(Ordinal(d)), d);
  }

  // ---------------------------------------------------------------- printed times

  /** The number some digits spell. */
  function Number(s: string): int {
    if forall c :: c in s ==> IsDigit(c) then Value(s) else -1
  }

  /** What the digits of a printed time say. */
  function PrintedDays(s: string): int
    requires |s| >= 19 && 1 <= Number(s[..4]) && 1 <= Number(s[5..7]) <= 12
  {
    DaysBeforeYear(Number(s[..4])) + DaysBeforeMonth(Number(s[..4]), Number(s[5..7])) + Number(s[8..10]) - 1
  }

  function PrintedSeconds(s: string): int
    requires |s| >= 19
  {
    (Number(s[11..13]) * 60 + Number(s[14..16])) * 60 + Number(s[17..19])
  }

  predicate Separated(s: string) {
    |s| >= 25 && s[4] == '-' && s[7] == '-' && s[10] == 'T' && s[13] == ':' && s[16] == ':'
  }

  lemma IsoDateReads(d: Date)
    requires d.year <= 9999
    ensures var s := IsoDate(d);
      s[4] == '-' && s[7] == '-' && Number(s[..4]) == d.year && Number(s[5..7]) == d.month && Number(s[8..10]) == d.day
  {
    assert Pow10(2) == 100 && Pow10(4) == 10000;
    var s := IsoDate(d);
    assert s[..4] == Pad(d.year, 4) && s[5..7] == Pad(d.month, 2) && s[8..10] == Pad(d.day, 2);
    ValueOfPad(d.year, 4);
    ValueOfPad(d.month, 2);
    ValueOfPad(d.day, 2);
  }

  lemma IsoClockReads(seconds: nat)
    requires seconds < 86_400
    ensures var s := IsoClock(seconds);
      s[2] == ':' && s[5] == ':' && (Number(s[..2]) * 60 + Number(s[3..5])) * 60 + Number(s[6..8]) == seconds
  {
    assert Pow10(2) == 100;
    var s := IsoClock(seconds);
    assert s[..2] == Pad(seconds / 3600, 2) && s[3..5] == Pad(seconds / 60 % 60, 2) && s[6..8] == Pad(seconds % 60, 2);
    ValueOfPad(seconds / 3600, 2);
    ValueOfPad(seconds / 60 % 60, 2);
    ValueOfPad(seconds % 60, 2);
    assert seconds / 60 / 60 == seconds / 3600;
  }

  predicate MadeOf(s: string, date: string, clock: string, fraction: string) {
    && |date| == 10 && |clock| == 8 && (fraction == [] || |fraction| == 6)
    && s == date + "T" + clock + (if fraction == [] then [] else "." + fraction) + "+00:00"
  }

  lemma PartsOfPrinted(s: string, date: string, clock: string, fraction: string)
    requires MadeOf(s, date, clock, fraction)
    ensures |s| == (if fraction == [] then 25 else 32)
    ensures s[..10] == date && s[10] == 'T' && s[11..19] == clock && s[|s| - 6..] == "+00:00"
    ensures fraction != [] ==> s[19] == '.' && s[20..26] == fraction
  {
  }

  lemma IsoFormatMadeOf(t: Instant)
    requires 0 <= t
    ensures MadeOf(IsoFormat(t), IsoDate(DateOf(t / DAY)), IsoClock(t % DAY / SECOND),
                   if t % SECOND == 0 then [] else Pad(t % SECOND, 6))
  {
    hide IsoDate;
    hide IsoClock;
    hide Pad;
    hide DateOf;
  }

  lemma PrintedDate(s: string, d: Date)
    requires |s| >= 25 && OnCalendar(d) && d.year <= 9999 && s[..10] == IsoDate(d)
    ensures s[4] == '-' && s[7] == '-' && 1 <= Number(s[..4]) && 1 <= Number(s[5..7]) <= 12
    ensures PrintedDays(s) == Ordinal(d)
  {
    hide IsoDate;
    hide DaysBeforeYear;
    hide DaysBeforeMonth;
    hide Number;
    IsoDateReads(d);
    assert s[..4] == s[..10][..4] && s[5..7] == s[..10][5..7] && s[8..10] == s[..10][8..10];
    assert s[4] == s[..10][4] && s[7] == s[..10][7];
  }

  lemma PrintedClock(s: string, seconds: nat)
    requires |s| >= 25 && seconds < 86_400 && s[11..19] == IsoClock(seconds)
    ensures s[13] == ':' && s[16] == ':' && PrintedSeconds(s) == seconds
  {
    hide IsoClock;
    hide Number;
    IsoClockReads(seconds);
    var c := s[11..19];
    assert s[11..13] == c[..2] && s[14..16] == c[3..5] && s[17..19] == c[6..8];
    assert s[13] == c[2] && s[16] == c[5];
  }

  /** A printed time reads back as the instant it was printed from: year, month and day by the
      calendar, then hours, minutes, seconds and, where there are any, microseconds, in UTC. */
  lemma IsoFormatReads(t: Instant)
    requires Representable(t)
    ensures var s := IsoFormat(t);
      && Separated(s) && 1 <= Number(s[..4]) && 1 <= Number(s[5..7]) <= 12
      && s[|s| - 6..] == "+00:00" && (|s| == 25 || (|s| == 32 && s[19] == '.'))
      && t == PrintedDays(s) * DAY + PrintedSeconds(s) * SECOND + (if |s| == 32 then Number(s[20..26]) else 0)
  {
    hide IsoDate;
    hide IsoClock;
    hide IsoFormat;
    hide Pad;
    hide Number;
    hide PrintedDays;
    hide PrintedSeconds;
    hide Ordinal;
    var s := IsoFormat(t);
    var fraction := if t % SECOND == 0 then [] else Pad(t % SECOND, 6);
    IsoFormatMadeOf(t);
    PartsOfPrinted(s, IsoDate(DateOf(t / DAY)), IsoClock(t % DAY / SECOND), fraction);
    DateOfHasOrdinal(t / DAY);
    PrintedDate(s, DateOf(t / DAY));
    PrintedClock(s, t % DAY / SECOND);
    InstantParts(t);
    if t % SECOND != 0 { MicrosRead(t % SECOND); }
  }

  lemma MicrosRead(n: nat)
    requires n < SECOND
    ensures Number(Pad(n, 6)) == n
  {
    assert Pow10(3) == 1000 && Pow10(6) == 1_000_000;
    ValueOfPad(n, 6);
  }

  // ---------------------------------------------------------------- read-backs

  /** The instant as a driver hands it back: with an offset, or naive in UTC. */
  function ReadAs(t: Instant, offset: Option<int>): Stamp {
    match offset
    case None => Stamp(t, None)
    case Some(o) => Stamp(t + o, Some(o))
  }

  /** Whatever the offset, it is the same instant. */
  lemma ReadBackIsSameInstant(t: Instant, offset: Option<int>)
    ensures AsUtc(ReadAs(t, offset)) == t
  {
  }
}
