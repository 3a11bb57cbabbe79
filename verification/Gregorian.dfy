/** Days since 1970-01-01 and calendar dates, in the proleptic Gregorian calendar. */
module Gregorian {

  /** Months are numbered from 0, as java.util.Calendar does. */
  datatype Date = Date(year: int, month: int, day: int)

  predicate IsLeap(y: int)
  {
    y % 4 == 0 && (y % 100 != 0 || y % 400 == 0)
  }

  function DaysInYear(y: int): int
  {
    if IsLeap(y) then 366 else 365
  }

  function DaysInMonth(y: int, m: int): int
    requires 0 <= m < 12
  {
    if m == 1 then (if IsLeap(y) then 29 else 28)
    else if m == 3 || m == 5 || m == 8 || m == 10 then 30
    else 31
  }

  predicate ValidDate(d: Date)
  {
    0 <= d.month < 12 && 1 <= d.day <= DaysInMonth(d.year, d.month)
  }

  /** Days from 0001-01-01 to the first day of year `y`. */
  function YearStart(y: int): int
  {
    365 * (y - 1) + (y - 1) / 4 - (y - 1) / 100 + (y - 1) / 400
  }

  /** Quotients and remainders by the three cycle lengths of the calendar. */
  lemma By4(q: int, r: int)
    requires 0 <= r < 4
    ensures (4 * q + r) / 4 == q && (4 * q + r) % 4 == r
  {}

  lemma By100(q: int, r: int)
    requires 0 <= r < 100
    ensures (100 * q + r) / 100 == q && (100 * q + r) % 100 == r
  {}

  lemma By400(q: int, r: int)
    requires 0 <= r < 400
    ensures (400 * q + r) / 400 == q && (400 * q + r) % 400 == r
  {}

  /** The first day of the year that follows year `400a + 100b + 4c + d`, and
      whether that following year is a leap year. */
  lemma CycleStart(a: int, b: int, c: int, d: int)
    requires 0 <= b < 4 && 0 <= c < 25 && 0 <= d < 4
    ensures
      var z := 400 * a + 100 * b + 4 * c + d;
      && YearStart(z + 1) == 146097 * a + 36524 * b + 1461 * c + 365 * d
      && (IsLeap(z + 1) <==> d == 3 && (c < 24 || b == 3))
  {
    var z := 400 * a + 100 * b + 4 * c + d;
    By4(100 * a + 25 * b + c, d);
    By100(4 * a + b, 4 * c + d);
    By400(a, 100 * b + 4 * c + d);
    assert YearStart(z + 1) == 365 * z + z / 4 - z / 100 + z / 400;
    if d < 3 {
      By4(100 * a + 25 * b + c, d + 1);
    } else if c < 24 {
      By4(100 * a + 25 * b + c + 1, 0);
      By100(4 * a + b, 4 * c + 4);
    } else if b < 3 {
      By100(4 * a + b + 1, 0);
      By400(a, 100 * b + 100);
    } else {
      By4(100 * a + 100, 0);
      By400(a + 1, 0);
    }
  }

  /** A year number split into its cycles. */
  lemma Cycles(z: int) returns (a: int, b: int, c: int, d: int)
    ensures 0 <= b < 4 && 0 <= c < 25 && 0 <= d < 4
    ensures z == 400 * a + 100 * b + 4 * c + d
  {
    a := z / 400;
    var r := z % 400;
    b := r / 100;
    c := r % 100 / 4;
    d := r % 100 % 4;
  }

  /** The closed form counts the days of each year. */
  lemma YearStartStep(y: int)
    ensures YearStart(y + 1) == YearStart(y) + DaysInYear(y)
  {
    var a, b, c, d := Cycles(y - 1);
    CycleStart(a, b, c, d);
    if d < 3 {
      CycleStart(a, b, c, d + 1);
    } else if c < 24 {
      CycleStart(a, b, c + 1, 0);
    } else if b < 3 {
      CycleStart(a, b + 1, 0, 0);
    } else {
      CycleStart(a + 1, 0, 0, 0);
    }
  }

  lemma {:induction false} YearStartMonotone(y: int, z: int)
    requires y <= z
    ensures YearStart(z) - YearStart(y) >= 365 * (z - y)
    decreases z - y
  {
    if y < z {
      YearStartStep(y);
      YearStartMonotone(y + 1, z);
    }
  }

  /** Days from the first day of the year to the first day of month `m`. */
  function MonthStart(y: int, m: int): int
    requires 0 <= m <= 12
  {
    if m == 0 then 0 else MonthStart(y, m - 1) + DaysInMonth(y, m - 1)
  }

  lemma MonthStarts(y: int)
    ensures MonthStart(y, 12) == DaysInYear(y)
    ensures MonthStart(y, 1) == 31
    ensures forall m :: 1 < m <= 12 ==>
              MonthStart(y, m) ==
              [59, 90, 120, 151, 181, 212, 243, 273, 304, 334, 365][m - 2] + (if IsLeap(y) then 1 else 0)
  {
    assert MonthStart(y, 1) == 31;
    assert MonthStart(y, 2) == MonthStart(y, 1) + DaysInMonth(y, 1);
    assert MonthStart(y, 3) == MonthStart(y, 2) + 31;
    assert MonthStart(y, 4) == MonthStart(y, 3) + 30;
    assert MonthStart(y, 5) == MonthStart(y, 4) + 31;
    assert MonthStart(y, 6) == MonthStart(y, 5) + 30;
    assert MonthStart(y, 7) == MonthStart(y, 6) + 31;
    assert MonthStart(y, 8) == MonthStart(y, 7) + 31;
    assert MonthStart(y, 9) == MonthStart(y, 8) + 30;
    assert MonthStart(y, 10) == MonthStart(y, 9) + 31;
    assert MonthStart(y, 11) == MonthStart(y, 10) + 30;
    assert MonthStart(y, 12) == MonthStart(y, 11) + 31;
  }

  /** Days from 0001-01-01 to 1970-01-01. */
  const EPOCH: int := 719162

  /** Days since the epoch. The day of the month may be any number. */
  function DaysFromCivil(d: Date): int
    requires 0 <= d.month < 12
  {
    YearStart(d.year) + MonthStart(d.year, d.month) + d.day - 1 - EPOCH
  }

  /** The year that holds day `n` counted from 0001-01-01, by cycles of 400,
      100, 4 years and single years. */
  function YearOf(n: int): int
  {
    var n400, d400 := n / 146097, n % 146097;
    var n100, d100 := d400 / 36524, d400 % 36524;
    var n4, d4 := d100 / 1461, d100 % 1461;
    var n1 := d4 / 365;
    var y := 400 * n400 + 100 * n100 + 4 * n4 + n1;
    if n100 == 4 || n1 == 4 then y else y + 1
  }

  /** The month that holds day `d` of year `y`, searched from month `m` on. */
  function MonthOf(y: int, d: int, m: int): int
    requires 0 <= m < 12
    decreases 12 - m
  {
    if m == 11 || d < MonthStart(y, m + 1) then m else MonthOf(y, d, m + 1)
  }

  /** Day `n` counted from 0001-01-01, known to be in year `y`. */
  function DateIn(y: int, n: int): Date
  {
    var d := n - YearStart(y);
    var m := MonthOf(y, d, 0);
    Date(y, m, d - MonthStart(y, m) + 1)
  }

  function CivilFromDays(days: int): Date
  {
    DateIn(YearOf(days + EPOCH), days + EPOCH)
  }

  /** The cycles find the year that holds the day. */
  lemma YearOfCorrect(n: int)
    ensures YearStart(YearOf(n)) <= n < YearStart(YearOf(n) + 1)
  {
    var n400, d400 := n / 146097, n % 146097;
    var n100, d100 := d400 / 36524, d400 % 36524;
    var n4, d4 := d100 / 1461, d100 % 1461;
    var n1 := d4 / 365;
    assert 0 <= n100 <= 4 && 0 <= n4 <= 24 && 0 <= n1 <= 4;
    assert n100 == 4 ==> d100 == 0 && n4 == 0 && n1 == 0;
    assert n1 == 4 ==> d4 == 1460;
    assert n4 == 24 ==> d4 < 1460 || n100 == 3;
    YearStartStep(YearOf(n));
    if n100 == 4 {
      CycleStart(n400, 3, 24, 3);
    } else if n1 == 4 {
      CycleStart(n400, n100, n4, 3);
    } else {
      CycleStart(n400, n100, n4, n1);
    }
  }

  lemma YearUnique(n: int, y: int)
    requires YearStart(y) <= n < YearStart(y + 1)
    ensures YearOf(n) == y
  {
    YearOfCorrect(n);
    var z := YearOf(n);
    if y < z {
      YearStartMonotone(y + 1, z);
    } else if z < y {
      YearStartMonotone(z + 1, y);
    }
  }

  lemma {:induction false} MonthStartMonotone(y: int, m: int, k: int)
    requires 0 <= m <= k <= 12
    ensures MonthStart(y, m) <= MonthStart(y, k)
    decreases k - m
  {
    if m < k {
      MonthStartMonotone(y, m, k - 1);
    }
  }

  lemma {:induction false} MonthOfCorrect(y: int, d: int, m: int)
    requires 0 <= m < 12 && MonthStart(y, m) <= d < DaysInYear(y)
    ensures
      var k := MonthOf(y, d, m);
      m <= k < 12 && MonthStart(y, k) <= d < MonthStart(y, k + 1)
    decreases 12 - m
  {
    if m == 11 || d < MonthStart(y, m + 1) {
      MonthStarts(y);
    } else {
      MonthOfCorrect(y, d, m + 1);
    }
  }

  lemma DayInYear(y: int, n: int)
    requires YearStart(y) <= n < YearStart(y + 1)
    ensures ValidDate(DateIn(y, n))
    ensures DaysFromCivil(DateIn(y, n)) == n - EPOCH
  {
    YearStartStep(y);
    MonthOfCorrect(y, n - YearStart(y), 0);
    var m := MonthOf(y, n - YearStart(y), 0);
    assert MonthStart(y, m + 1) == MonthStart(y, m) + DaysInMonth(y, m);
  }

  /** A day number becomes a real date and back. */
  lemma CivilRoundTrip(days: int)
    ensures ValidDate(CivilFromDays(days))
    ensures DaysFromCivil(CivilFromDays(days)) == days
  {
    YearOfCorrect(days + EPOCH);
    DayInYear(YearOf(days + EPOCH), days + EPOCH);
  }

  lemma DayOfDate(d: Date)
    requires ValidDate(d)
    ensures
      var n := DaysFromCivil(d) + EPOCH;
      YearStart(d.year) <= n < YearStart(d.year + 1) && DateIn(d.year, n) == d
  {
    var r := MonthStart(d.year, d.month) + d.day - 1;
    MonthStartMonotone(d.year, 0, d.month);
    assert MonthStart(d.year, d.month + 1) == MonthStart(d.year, d.month) + DaysInMonth(d.year, d.month);
    MonthStartMonotone(d.year, d.month + 1, 12);
    MonthStarts(d.year);
    YearStartStep(d.year);
    MonthOfCorrect(d.year, r, 0);
    var m := MonthOf(d.year, r, 0);
    if m < d.month {
      MonthStartMonotone(d.year, m + 1, d.month);
    } else if d.month < m {
      MonthStartMonotone(d.year, d.month + 1, m);
    }
  }

  /** A real date becomes a day number and back. */
  lemma DateRoundTrip(d: Date)
    requires ValidDate(d)
    ensures CivilFromDays(DaysFromCivil(d)) == d
  {
    DayOfDate(d);
    YearUnique(DaysFromCivil(d) + EPOCH, d.year);
  }

  /** The epoch is the first of January 1970. */
  lemma EpochIs1970()
    ensures DaysFromCivil(Date(1970, 0, 1)) == 0
  {}
}
