/**
 The calendar of the charts in numbers: lengths of months and years, the day a year starts on,
 the Mondays, and how long a range each interval covers with 500 points.
 */
module Calendar {
  import opened Prelude
  import opened Analytics

  const LENGTHS: seq<nat> := [31, 28, 31, 30, 31, 30, 31, 31, 30, 31, 30, 31]

  predicate LeapYear(year: nat) {
    (year % 4 == 0 && year % 100 != 0) || year % 400 == 0
  }

  lemma {:induction false} LeapAgrees(year: nat)
    ensures Leap(year) <==> LeapYear(year)
  {
    if year % 400 == 0 {
      Nested(year);
    }
  }

  /** Multiples of 400 are multiples of 100, and those of 4. */
  lemma {:induction false} Nested(n: nat)
    ensures n % 400 == 0 ==> n % 100 == 0
    ensures n % 100 == 0 ==> n % 4 == 0
  {
    if n % 400 == 0 {
      assert n == 100 * (4 * (n / 400));
    }
    if n % 100 == 0 {
      assert n == 4 * (25 * (n / 100));
    }
  }

  lemma {:induction false} MonthIndex(y: nat, k: nat)
    requires k < 12
    ensures (12 * y + k) / 12 == y && (12 * y + k) % 12 == k
  {
  }

  /** The twelve lengths, with a day more in February of leap years. */
  lemma {:induction false} TwelveMonths(y: nat, k: nat)
    requires k < 12
    ensures MonthLength(12 * y + k) == LENGTHS[k] + if k == 1 && LeapYear(1970 + y) then 1 else 0
  {
    hide Leap, LeapYear;
    MonthIndex(y, k);
    LeapAgrees(1970 + y);
  }

  lemma {:induction false} MonthsInYear(y: nat, k: nat)
    requires k <= 12
    ensures MonthStart(12 * y + k) == MonthStart(12 * y) + SumTo(k) + if k >= 2 && LeapYear(1970 + y) then 1 else 0
  {
    hide MonthLength;
    if k > 0 {
      MonthsInYear(y, k - 1);
      TwelveMonths(y, k - 1);
      assert MonthStart(12 * y + k) == MonthStart(12 * y + k - 1) + MonthLength(12 * y + k - 1);
    }
  }

  /** Days of the first `k` months of a common year. */
  function SumTo(k: nat): nat
    requires k <= 12
  {
    if k == 0 then 0 else SumTo(k - 1) + LENGTHS[k - 1]
  }

  lemma {:induction false} CommonYear()
    ensures SumTo(12) == 365
  {
    assert SumTo(3) == 90;
    assert SumTo(6) == SumTo(3) + 91;
    assert SumTo(9) == SumTo(6) + 92;
    assert SumTo(12) == SumTo(9) + 92;
  }

  /** A year has 365 days, or 366 by the Gregorian rule. */
  lemma {:induction false} YearLength(y: nat)
    ensures MonthStart(12 * (y + 1)) - MonthStart(12 * y) == if LeapYear(1970 + y) then 366 else 365
  {
    hide MonthStart, SumTo;
    MonthsInYear(y, 12);
    CommonYear();
    assert 12 * (y + 1) == 12 * y + 12;
  }

  /** Leap years up to and including `n`. */
  function LeapsUpTo(n: nat): int {
    n / 4 - n / 100 + n / 400
  }

  lemma {:induction false} Next4(n: nat)
    ensures (n + 1) / 4 == n / 4 + if (n + 1) % 4 == 0 then 1 else 0
  {
  }

  lemma {:induction false} Next100(n: nat)
    ensures (n + 1) / 100 == n / 100 + if (n + 1) % 100 == 0 then 1 else 0
  {
  }

  lemma {:induction false} Next400(n: nat)
    ensures (n + 1) / 400 == n / 400 + if (n + 1) % 400 == 0 then 1 else 0
  {
  }

  lemma {:induction false} OneMoreLeap(n: nat)
    ensures LeapsUpTo(n + 1) == LeapsUpTo(n) + if LeapYear(n + 1) then 1 else 0
  {
    var a, b, c := (n + 1) / 4, (n + 1) / 100, (n + 1) / 400;
    var x, y, z := (n + 1) % 4 == 0, (n + 1) % 100 == 0, (n + 1) % 400 == 0;
    Next4(n);
    Next100(n);
    Next400(n);
    Nested(n + 1);
    assert LeapYear(n + 1) <==> (x && !y) || z;
    assert LeapsUpTo(n + 1) == a - b + c;
  }

  /** The day on which a year starts, without counting months; 477 leap years precede 1970. */
  lemma {:induction false} YearStart(y: nat)
    ensures MonthStart(12 * y) == 365 * y + LeapsUpTo(1969 + y) - 477
  {
    hide MonthStart, LeapsUpTo;
    if y == 0 {
      FirstYear();
    } else {
      YearStart(y - 1);
      YearLength(y - 1);
      OneMoreLeap(1968 + y);
    }
  }

  lemma {:induction false} FirstYear()
    ensures MonthStart(0) == 0 && LeapsUpTo(1969) == 477
  {
  }

  lemma {:induction false} LeapsInFourCenturies(n: nat)
    ensures LeapsUpTo(n + 400) == LeapsUpTo(n) + 97
  {
    assert (n + 400) / 4 == n / 4 + 100;
    assert (n + 400) / 100 == n / 100 + 4;
    assert (n + 400) / 400 == n / 400 + 1;
  }

  /** Four hundred years have 146097 days, wherever they start. */
  lemma {:induction false} FourCenturies(y: nat)
    ensures MonthStart(12 * (y + 400)) - MonthStart(12 * y) == 146097
  {
    hide MonthStart, LeapsUpTo;
    YearStart(y);
    YearStart(y + 400);
    LeapsInFourCenturies(1969 + y);
  }

  /** 1 March 2000 is day 11017, and lies in month 362. */
  lemma {:induction false} March2000()
    ensures MonthStart(362) == 11017 && MonthOf(11017) == 362
    ensures BucketStart(11017 * 86400 + 5, Month) == 11017 * 86400
  {
    hide MonthStart, MonthLength, MonthFrom;
    YearStart(30);
    TwoMonths(30);
    TwelveMonths(30, 2);
    MonthOfUnique(11017, 362);
  }

  lemma {:induction false} TwoMonths(y: nat)
    ensures MonthStart(12 * y + 2) == MonthStart(12 * y) + 59 + if LeapYear(1970 + y) then 1 else 0
  {
    hide MonthStart;
    MonthsInYear(y, 2);
    assert SumTo(2) == 59;
  }

  /** Hours and days start at multiples of their length. */
  lemma {:induction false} StartsInNumbers(t: nat)
    ensures BucketStart(t, Hour) == t - t % 3600 && BucketStart(t, Day) == t - t % 86400
  {
    hide MonthStart, MonthOf, MonthLength, WeekOffset;
  }

  lemma {:induction false} Sevenths(day: int)
    requires (day + 3) % 7 == 0
    ensures (day * 86400 - 4 * 86400) % 604800 == 0
  {
    var k := (day + 3) / 7;
    assert day == 7 * k - 3;
    assert day * 86400 - 4 * 86400 == (k - 1) * 604800;
  }

  /** Weeks start on Mondays, a whole number of weeks from 5 January 1970. */
  lemma {:induction false} WeeksInNumbers(t: nat)
    ensures (BucketStart(t, Week) - 4 * 86400) % 604800 == 0 && t - 604800 < BucketStart(t, Week) <= t
  {
    hide MonthStart, MonthOf, MonthLength, BucketStart;
    InBucket(t, Week);
    Sevenths(BucketStart(t, Week) / 86400);
  }

  lemma {:induction false} StartAtInNumbers(first: int, i: Interval, n: nat, length: int)
    requires (i.Hour? && length == 3600) || (i.Day? && length == 86400) || (i.Week? && length == 604800)
    ensures StartAt(first, i, n) == first + n * length
  {
    if n > 0 {
      StartAtInNumbers(first, i, n - 1, length);
      assert (n - 1) * length + length == n * length;
    }
  }

  lemma {:induction false} StartAtMonths(m: nat, n: nat)
    ensures StartAt(MonthStart(m) * 86400, Month, n) == MonthStart(m + n) * 86400
  {
    hide MonthFrom, MonthLength;
    if n > 0 {
      StartAtMonths(m, n - 1);
      var k := m + n - 1;
      assert MonthStart(k) * 86400 / 86400 == MonthStart(k);
      MonthOfUnique(MonthStart(k), k);
      assert MonthStart(k + 1) == MonthStart(k) + MonthLength(k);
    }
  }

  /** Which ranges an interval covers with 500 points. */
  lemma {:induction false} FitsInNumbers(from: nat, until: int)
    ensures Fits(from, until, Hour) <==> until <= from - from % 3600 + 500 * 3600
    ensures Fits(from, until, Day) <==> until <= from - from % 86400 + 500 * 86400
    ensures Fits(from, until, Week) <==> until <= BucketStart(from, Week) + 500 * 604800
    ensures Fits(from, until, Month) <==> until <= MonthStart(MonthOf(from / 86400) + 500) * 86400
  {
    hide StartAt, MonthStart, MonthOf, MonthLength, WeekOffset;
    StartsInNumbers(from);
    StartAtInNumbers(BucketStart(from, Hour), Hour, 500, 3600);
    StartAtInNumbers(BucketStart(from, Day), Day, 500, 86400);
    StartAtInNumbers(BucketStart(from, Week), Week, 500, 604800);
    StartAtMonths(MonthOf(from / 86400), 500);
  }
}
