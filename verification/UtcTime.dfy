/**
 * Times as the system stores and prints them. An instant counts the microseconds since
 * 0001-01-01T00:00:00 UTC; a stamp is what a database driver hands back, a wall-clock
 * reading with or without an offset.
 */
module UtcTime {
  import opened Wrappers
  import opened Json
  import opened JsonParser

  type Instant = int

  const SECOND: int := 1_000_000
  const DAY: int := 86_400 * SECOND

  datatype Stamp = Stamp(local: int, offset: Option<int>)

  /** `as_utc`: a naive reading is UTC, an aware one is shifted by its offset. */
  function AsUtc(s: Stamp): Instant {
    match s.offset
    case None => s.local
    case Some(o) => s.local - o
  }

  /** The whole seconds of an instant, as a JWT carries them. */
  function FloorSeconds(t: Instant): int {
    t / SECOND
  }

  // ---------------------------------------------------------------- calendar

  datatype RawDate = Date(year: nat, month: nat, day: nat)

  type Date = d: RawDate | 1 <= d.month <= 12 && 1 <= d.day <= 31 witness Date(1, 1, 1)

  predicate LeapYear(year: nat) {
    year % 4 == 0 && (year % 100 != 0 || year % 400 == 0)
  }

  function DaysIn(year: nat, month: nat): (n: nat)
    ensures 28 <= n <= 31
  {
    if month == 2 then (if LeapYear(year) then 29 else 28)
    else if month in {4, 6, 9, 11} then 30
    else 31
  }

  function NextDay(d: Date): Date {
    if d.day < DaysIn(d.year, d.month) then Date(d.year, d.month, d.day + 1)
    else if d.month < 12 then Date(d.year, d.month + 1, 1)
    else Date(d.year + 1, 1, 1)
  }

  /** The date `n` days after 0001-01-01. */
  function DateOf(n: nat): Date {
    if n == 0 then Date(1, 1, 1) else NextDay(DateOf(n - 1))
  }

  function Rank(d: Date): nat {
    (d.year * 100 + d.month) * 100 + d.day
  }

  lemma {:induction false} DateOfIncreases(m: nat, n: nat)
    requires m < n
    ensures Rank(DateOf(m)) < Rank(DateOf(n))
  {
    var d := DateOf(n - 1);
    assert Rank(d) < Rank(NextDay(d));
    if m < n - 1 {
      DateOfIncreases(m, n - 1);
    }
  }

  // ---------------------------------------------------------------- isoformat

  function Pow10(w: nat): (p: nat)
    ensures p > 0
  {
    if w == 0 then 1 else 10 * Pow10(w - 1)
  }

  /** `n` in exactly `w` decimal digits. */
  function Pad(n: nat, w: nat): (s: string)
    ensures |s| == w
    ensures forall c :: c in s ==> IsDigit(c)
  {
    if w == 0 then [] else Pad(n / 10, w - 1) + [Digit(n % 10)]
  }

  lemma {:induction false} ValueOfPad(n: nat, w: nat)
    requires n < Pow10(w)
    ensures Value(Pad(n, w)) == n
  {
    if w > 0 {
      ValueOfPad(n / 10, w - 1);
      assert Pad(n, w)[..w - 1] == Pad(n / 10, w - 1);
    }
  }

  lemma PadInjective(m: nat, n: nat, w: nat)
    requires m < Pow10(w) && n < Pow10(w) && Pad(m, w) == Pad(n, w)
    ensures m == n
  {
    ValueOfPad(m, w);
    ValueOfPad(n, w);
  }

  /** Instants a `datetime` can hold: years 1 to 9999. */
  predicate Representable(t: Instant) {
    0 <= t && DateOf(t / DAY).year <= 9999
  }

  function IsoDate(d: Date): (s: string)
    ensures |s| == 10
  {
    Pad(d.year, 4) + "-" + Pad(d.month, 2) + "-" + Pad(d.day, 2)
  }

  function IsoClock(seconds: nat): (s: string)
    ensures |s| == 8
  {
    Pad(seconds / 3600, 2) + ":" + Pad(seconds / 60 % 60, 2) + ":" + Pad(seconds % 60, 2)
  }

  /** `datetime.isoformat()` of a UTC value: the fraction appears only when it is not zero. */
  function IsoFormat(t: Instant): string
    requires 0 <= t
  {
    var micros := t % SECOND;
    IsoDate(DateOf(t / DAY)) + "T" + IsoClock(t % DAY / SECOND)
    + (if micros == 0 then "" else "." + Pad(micros, 6)) + "+00:00"
  }

  lemma IsoDateInjective(d: Date, e: Date)
    requires d.year <= 9999 && e.year <= 9999 && IsoDate(d) == IsoDate(e)
    ensures d == e
  {
    assert Pow10(2) == 100 && Pow10(4) == 10000;
    assert IsoDate(d)[..4] == Pad(d.year, 4) && IsoDate(e)[..4] == Pad(e.year, 4);
    assert IsoDate(d)[5..7] == Pad(d.month, 2) && IsoDate(e)[5..7] == Pad(e.month, 2);
    assert IsoDate(d)[8..] == Pad(d.day, 2) && IsoDate(e)[8..] == Pad(e.day, 2);
    PadInjective(d.year, e.year, 4);
    PadInjective(d.month, e.month, 2);
    PadInjective(d.day, e.day, 2);
  }

  lemma IsoClockInjective(a: nat, b: nat)
    requires a < 86_400 && b < 86_400 && IsoClock(a) == IsoClock(b)
    ensures a == b
  {
    assert Pow10(2) == 100;
    assert IsoClock(a)[..2] == Pad(a / 3600, 2) && IsoClock(b)[..2] == Pad(b / 3600, 2);
    assert IsoClock(a)[3..5] == Pad(a / 60 % 60, 2) && IsoClock(b)[3..5] == Pad(b / 60 % 60, 2);
    assert IsoClock(a)[6..] == Pad(a % 60, 2) && IsoClock(b)[6..] == Pad(b % 60, 2);
    PadInjective(a / 3600, b / 3600, 2);
    PadInjective(a / 60 % 60, b / 60 % 60, 2);
    PadInjective(a % 60, b % 60, 2);
    assert forall s: nat :: s / 60 / 60 == s / 3600;
  }

  lemma IsoMicrosInjective(a: nat, b: nat)
    requires 0 < a < SECOND && 0 < b < SECOND && Pad(a, 6) == Pad(b, 6)
    ensures a == b
  {
    assert Pow10(3) == 1000 && Pow10(6) == 1_000_000;
    PadInjective(a, b, 6);
  }

  /** Two instants print alike only when they are the same instant. */
  lemma IsoFormatInjective(s: Instant, t: Instant)
    requires Representable(s) && Representable(t) && IsoFormat(s) == IsoFormat(t)
    ensures s == t
  {
    hide IsoDate;
    hide IsoClock;
    hide Pad;
    var ds, dt := DateOf(s / DAY), DateOf(t / DAY);
    assert IsoFormat(s)[..10] == IsoDate(ds) && IsoFormat(t)[..10] == IsoDate(dt);
    IsoDateInjective(ds, dt);
    if s / DAY < t / DAY {
      DateOfIncreases(s / DAY, t / DAY);
    } else if t / DAY < s / DAY {
      DateOfIncreases(t / DAY, s / DAY);
    }
    assert IsoFormat(s)[11..19] == IsoClock(s % DAY / SECOND);
    assert IsoFormat(t)[11..19] == IsoClock(t % DAY / SECOND);
    IsoClockInjective(s % DAY / SECOND, t % DAY / SECOND);
    if s % SECOND != 0 && t % SECOND != 0 {
      assert IsoFormat(s)[20..26] == Pad(s % SECOND, 6);
      assert IsoFormat(t)[20..26] == Pad(t % SECOND, 6);
      IsoMicrosInjective(s % SECOND, t % SECOND);
    }
    InstantParts(s);
    InstantParts(t);
  }

  lemma InstantParts(t: Instant)
    requires 0 <= t
    ensures t == t / DAY * DAY + t % DAY / SECOND * SECOND + t % SECOND
  {
    var d, r := t / DAY, t % DAY;
    assert t == SECOND * (d * 86_400) + r;
    assert t % SECOND == r % SECOND;
  }
}
