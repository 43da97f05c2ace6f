/** Local calendar arithmetic as JavaScript's `Date` does it (ECMA-262 MakeDay /
    MakeDate), in server-local wall-clock time with no daylight-saving gaps.

    A month is identified by its index `year * 12 + month` (months counted from
    0, as `getMonth()` does); `MonthStart` numbers the first day of every month
    consecutively, so a day number is `MonthStart(index) + day - 1` and an
    instant is `dayNumber * 86400000 + millisecondsIntoTheDay`. Only differences
    and comparisons of instants are ever used, so the origin (day 0 is
    0000-01-01) does not matter. */
module Calendar {

  const MsPerDay: int := 86400000

  /** The Gregorian leap-year rule. */
  predicate IsLeapYear(y: int)
  {
    y % 4 == 0 && (y % 100 != 0 || y % 400 == 0)
  }

  /** Length of month `m` (0 = January) of year `y`. */
  function DaysInMonth(y: int, m: int): (n: int)
    requires 0 <= m < 12
    ensures 28 <= n <= 31
    ensures m == 1 ==> (n == 29 <==> IsLeapYear(y))
    ensures m != 1 ==> (n == 30 <==> m in {3, 5, 8, 10})
    ensures m != 1 && m !in {3, 5, 8, 10} ==> n == 31
  {
    if m == 1 then (if IsLeapYear(y) then 29 else 28)
    else if m == 3 || m == 5 || m == 8 || m == 10 then 30
    else 31
  }

  /** Length of the month with index `k`. */
  function MonthLength(k: int): int
  {
    DaysInMonth(k / 12, k % 12)
  }

  /** Day number of the first day of the month with index `k`. */
  function MonthStart(k: int): int
    decreases if k < 0 then -k else k
  {
    if k == 0 then 0
    else if k > 0 then MonthStart(k - 1) + MonthLength(k - 1)
    else MonthStart(k + 1) - MonthLength(k)
  }

  /** Consecutive months abut: the next month starts right after this one's last day. */
  lemma MonthStep(k: int)
    ensures MonthStart(k + 1) == MonthStart(k) + MonthLength(k)
  {
  }

  /** An earlier month ends no later than a later month starts. */
  lemma {:induction false} MonthStartMonotone(j: int, k: int)
    requires j < k
    ensures MonthStart(j) + MonthLength(j) <= MonthStart(k)
    decreases k - j
  {
    MonthStep(j);
    if j + 1 < k {
      MonthStartMonotone(j + 1, k);
    }
  }

  /** The month index of (year `y`, month `m`) decodes back to `y` and `m`. */
  lemma IndexParts(y: int, m: int)
    requires 0 <= m < 12
    ensures (y * 12 + m) / 12 == y && (y * 12 + m) % 12 == m
  {
  }

  /** ECMA-262 MakeDay(y, m, d): day number of day `d` of month `m` of year `y`,
      where `m` and `d` may lie outside their usual ranges and carry over
      (`new Date(y, m + 1, 0)` is the last day of month `m`). */
  function MakeDay(y: int, m: int, d: int): int
  {
    MonthStart(y * 12 + m) + d - 1
  }

  /** Carrying whole years out of the month argument does not move the day. */
  lemma MakeDayNormalises(y: int, m: int, d: int)
    ensures MakeDay(y, m, d) == MakeDay(y + m / 12, m % 12, d)
  {
  }

  /** `new Date(y, m, d)`: local midnight starting that day. */
  function LocalMidnight(y: int, m: int, d: int): int
  {
    MakeDay(y, m, d) * 86400000
  }

  /** A local date and time as its calendar fields report them. */
  datatype DateTime = DateTime(year: int, month: int, day: int, ms: int)

  predicate ValidDateTime(t: DateTime)
  {
    && 0 <= t.month < 12
    && 1 <= t.day <= DaysInMonth(t.year, t.month)
    && 0 <= t.ms < 86400000
  }

  /** The instant `t` denotes, in local milliseconds. */
  function Epoch(t: DateTime): int
  {
    MakeDay(t.year, t.month, t.day) * 86400000 + t.ms
  }

  /** The last day of month `m` is the day before day 0 of the following month. */
  lemma EndOfMonthIsLastDay(y: int, m: int)
    requires 0 <= m < 12
    ensures MakeDay(y, m + 1, 0) == MakeDay(y, m, DaysInMonth(y, m))
  {
    MonthStep(y * 12 + m);
    IndexParts(y, m);
  }

  /** Every valid instant lies inside its own month: from its first midnight up
      to, not including, the next month's first midnight. */
  lemma InsideOwnMonth(t: DateTime)
    requires ValidDateTime(t)
    ensures var k := t.year * 12 + t.month;
            MonthStart(k) * 86400000 <= Epoch(t) < MonthStart(k + 1) * 86400000
  {
    var k := t.year * 12 + t.month;
    IndexParts(t.year, t.month);
    MonthStep(k);
  }

  /** Epoch order is calendar order: an instant in an earlier month is earlier. */
  lemma EarlierMonthEarlier(s: DateTime, t: DateTime)
    requires ValidDateTime(s) && ValidDateTime(t)
    requires s.year * 12 + s.month < t.year * 12 + t.month
    ensures Epoch(s) < Epoch(t)
  {
    var j := s.year * 12 + s.month;
    var k := t.year * 12 + t.month;
    InsideOwnMonth(s);
    InsideOwnMonth(t);
    MonthStep(j);
    MonthStartMonotone(j, k);
  }

  /** Within one day, epoch order is time-of-day order; across days of one
      month it is day order. */
  lemma SameMonthOrder(s: DateTime, t: DateTime)
    requires ValidDateTime(s) && ValidDateTime(t)
    requires s.year == t.year && s.month == t.month
    ensures Epoch(s) <= Epoch(t) <==> s.day < t.day || (s.day == t.day && s.ms <= t.ms)
  {
  }

  /** Belonging to month `m` of year `y` is being inside its epoch range. */
  lemma {:induction false} InMonthIff(t: DateTime, y: int, m: int)
    requires ValidDateTime(t) && 0 <= m < 12
    ensures LocalMidnight(y, m, 1) <= Epoch(t) < LocalMidnight(y, m + 1, 1)
            <==> t.year == y && t.month == m
  {
    var K := y * 12 + m;
    var k := t.year * 12 + t.month;
    assert LocalMidnight(y, m, 1) == MonthStart(K) * 86400000;
    assert LocalMidnight(y, m + 1, 1) == MonthStart(K + 1) * 86400000;
    InsideOwnMonth(t);
    if k < K {
      MonthStep(k);
      MonthStartMonotone(k, K);
      assert MonthStart(k + 1) <= MonthStart(K);
      assert Epoch(t) < LocalMidnight(y, m, 1);
    } else if k > K {
      MonthStep(K);
      MonthStartMonotone(K, k);
      assert MonthStart(K + 1) <= MonthStart(k);
      assert LocalMidnight(y, m + 1, 1) <= Epoch(t);
    } else {
      assert t.year == y && t.month == m;
    }
  }
}
