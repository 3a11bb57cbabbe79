/** QueryBuilder: the whole-day ranges that a date condition on a LONG field becomes. */
module QueryDates {
  import opened Wrappers
  import opened Decimal
  import opened Gregorian

  const ONE_DAY: int := 86400000

  /** Signed 64-bit wrap-around. */
  function Wrap(x: int): long
  {
    ((x - MIN_LONG) % 0x1_0000_0000_0000_0000 + MIN_LONG) as long
  }

  /** java.util.Calendar in the UTC time zone: fields that are only combined
      when the time is read. */
  class UtcCalendar {
    var date: Date
    var hourOfDay: int
    var minute: int
    var second: int
    var millisecond: int

    /** Calendar.getInstance at time `now`. */
    constructor (now: long)
      ensures Fields() == FieldsOf(now)
    {
      var ofDay := (now as int) % ONE_DAY;
      date := CivilFromDays((now as int) / ONE_DAY);
      hourOfDay, minute := ofDay / 3600000, ofDay / 60000 % 60;
      second, millisecond := ofDay / 1000 % 60, ofDay % 1000;
    }

    function Fields(): (Date, int, int, int, int)
      reads this
    {
      (date, hourOfDay, minute, second, millisecond)
    }

    method SetTimeInMillis(t: long)
      modifies this
      ensures Fields() == FieldsOf(t)
    {
      var ofDay := (t as int) % ONE_DAY;
      date := CivilFromDays((t as int) / ONE_DAY);
      hourOfDay, minute := ofDay / 3600000, ofDay / 60000 % 60;
      second, millisecond := ofDay / 1000 % 60, ofDay % 1000;
    }

    method SetDayOfMonth(d: int)
      modifies `date
      ensures date == old(date).(day := d)
    {
      date := date.(day := d);
    }

    method SetMonth(m: int)
      modifies `date
      ensures date == old(date).(month := m)
    {
      date := date.(month := m);
    }

    method SetYear(y: int)
      modifies `date
      ensures date == old(date).(year := y)
    {
      date := date.(year := y);
    }

    method SetTimeOfDay(h: int, m: int, s: int, ms: int)
      modifies `hourOfDay, `minute, `second, `millisecond
      ensures Fields() == (old(date), h, m, s, ms)
    {
      hourOfDay, minute, second, millisecond := h, m, s, ms;
    }

    function GetTimeInMillis(): long
      requires 0 <= date.month < 12
      reads this
    {
      TimeOf(date, hourOfDay, minute, second, millisecond)
    }
  }

  function FieldsOf(t: long): (Date, int, int, int, int)
  {
    var ofDay := (t as int) % ONE_DAY;
    (CivilFromDays((t as int) / ONE_DAY),
     ofDay / 3600000, ofDay / 60000 % 60, ofDay / 1000 % 60, ofDay % 1000)
  }

  function TimeOf(date: Date, h: int, m: int, s: int, ms: int): long
    requires 0 <= date.month < 12
  {
    Wrap(DaysFromCivil(date) * ONE_DAY + h * 3600000 + m * 60000 + s * 1000 + ms)
  }

  lemma WrapInRange(t: long)
    ensures Wrap(t as int) == t
  {}

  /** A time that is taken apart and put together again is unchanged. */
  lemma FieldsRoundTrip(t: long)
    ensures
      var (date, h, m, s, ms) := FieldsOf(t);
      && ValidDate(date)
      && TimeOf(date, h, m, s, ms) == t
  {
    var days, ofDay := (t as int) / ONE_DAY, (t as int) % ONE_DAY;
    CivilRoundTrip(days);
    TimeOfDay(ofDay);
    assert days * ONE_DAY + ofDay == t as int;
    WrapInRange(t);
  }

  /** The date of a time, put together with the first or last millisecond. */
  lemma DayEdges(n: long)
    ensures
      var date := FieldsOf(n).0;
      && ValidDate(date)
      && TimeOf(date, 0, 0, 0, 0) == Wrap(DayStart(n as int))
      && TimeOf(date, 23, 59, 59, 999) == DayEnd(n as int)
  {
    var days := (n as int) / ONE_DAY;
    CivilRoundTrip(days);
    assert DayStart(n as int) == days * ONE_DAY;
  }

  lemma TimeOfDay(x: int)
    requires 0 <= x < ONE_DAY
    ensures x == x / 3600000 * 3600000 + x / 60000 % 60 * 60000 + x / 1000 % 60 * 1000 + x % 1000
  {
    var minutes, seconds := x / 60000, x / 1000;
    assert x / 3600000 == minutes / 60;
    assert minutes == seconds / 60;
  }

  datatype TimeType = START_OF_THE_DAY | END_OF_THE_DAY

  /** A field value: what Long.parseLong makes of it, or text that it rejects. */
  datatype FieldValue = Number(n: long) | Text(text: string)

  function DayStart(v: int): int
  {
    v - v % ONE_DAY
  }

  /** The last millisecond of the day of `v`, in 64 bits. */
  function DayEnd(v: int): long
  {
    Wrap(DayStart(v) + ONE_DAY - 1)
  }

  function DayEdge(value: FieldValue, edge: TimeType): FieldValue
  {
    match value
    case Text(_) => value
    case Number(n) =>
      if n <= 0 then value
      else if edge == START_OF_THE_DAY then Number(Wrap(DayStart(n as int)))
      else Number(DayEnd(n as int))
  }

  /** The first or last millisecond of the day of `n`, through a second calendar
      that starts from the present: no field of the present remains. */
  method RecomposeDay(n: long, edge: TimeType, now: long) returns (r: long)
    ensures r == if edge == START_OF_THE_DAY then Wrap(DayStart(n as int)) else DayEnd(n as int)
  {
    var time := new UtcCalendar(now);
    time.SetTimeInMillis(n);
    var newTime := new UtcCalendar(now);
    newTime.SetDayOfMonth(time.date.day);
    newTime.SetMonth(time.date.month);
    newTime.SetYear(time.date.year);
    DayEdges(n);
    if edge == START_OF_THE_DAY {
      newTime.SetTimeOfDay(0, 0, 0, 0);
    } else {
      newTime.SetTimeOfDay(23, 59, 59, 999);
    }
    r := newTime.GetTimeInMillis();
  }

  method ToDateMillisecond(value: FieldValue, edge: TimeType, now: long) returns (r: FieldValue)
    ensures r == DayEdge(value, edge)
  {
    if value.Number? && value.n > 0 {
      var n := RecomposeDay(value.n, edge, now);
      return Number(n);
    }
    return value;
  }

  /** Both ends of the day; the second is read from the same calendar after only
      its time of day has been set again. */
  method GetWholeDayMillisecond(value: FieldValue, now: long) returns (r: Option<(long, long)>)
    ensures value.Number? && value.n > 0 ==>
              r == Some((Wrap(DayStart(value.n as int)), DayEnd(value.n as int)))
    ensures value.Text? || value.n <= 0 ==> r == None
  {
    if value.Text? || value.n <= 0 {
      return None;
    }
    var startTime := new UtcCalendar(now);
    startTime.SetTimeInMillis(value.n);
    var newTime := new UtcCalendar(now);
    newTime.SetDayOfMonth(startTime.date.day);
    newTime.SetMonth(startTime.date.month);
    newTime.SetYear(startTime.date.year);
    DayEdges(value.n);
    newTime.SetTimeOfDay(0, 0, 0, 0);
    var start := newTime.GetTimeInMillis();
    newTime.SetTimeOfDay(23, 59, 59, 999);
    return Some((start, newTime.GetTimeInMillis()));
  }

  datatype DateCondition =
    DATE_BEFORE | DATE_BEFORE_OR_EQUAL | DATE_EQUALS | DATE_AFTER_OR_EQUAL | DATE_AFTER

  /** {* TO x}, [* TO x], [x TO y], [x TO *] and {x TO *}. */
  datatype Range =
    | Below(hi: FieldValue)
    | UpTo(hi: FieldValue)
    | Between(lo: FieldValue, hi: FieldValue)
    | From(lo: FieldValue)
    | Above(lo: FieldValue)

  function RangeFor(condition: DateCondition, value: FieldValue): Range
  {
    var start, end := DayEdge(value, START_OF_THE_DAY), DayEdge(value, END_OF_THE_DAY);
    match condition
    case DATE_BEFORE => Below(start)
    case DATE_BEFORE_OR_EQUAL => UpTo(end)
    case DATE_EQUALS => Between(start, end)
    case DATE_AFTER_OR_EQUAL => From(start)
    case DATE_AFTER => Above(end)
  }

  /** The date branches of addMetadataFieldValue for a LONG field. */
  method DateRange(condition: DateCondition, value: FieldValue, now: long) returns (r: Range)
    ensures r == RangeFor(condition, value)
    ensures value.Text? ==>
              match condition
              case DATE_BEFORE => r == Below(value)
              case DATE_BEFORE_OR_EQUAL => r == UpTo(value)
              case DATE_EQUALS => r == Between(value, value)
              case DATE_AFTER_OR_EQUAL => r == From(value)
              case DATE_AFTER => r == Above(value)
  {
    match condition
    case DATE_BEFORE =>
      var edge := ToDateMillisecond(value, START_OF_THE_DAY, now);
      return Below(edge);
    case DATE_BEFORE_OR_EQUAL =>
      var edge := ToDateMillisecond(value, END_OF_THE_DAY, now);
      return UpTo(edge);
    case DATE_EQUALS =>
      var wholeDay := GetWholeDayMillisecond(value, now);
      if wholeDay.Some? {
        return Between(Number(wholeDay.value.0), Number(wholeDay.value.1));
      }
      var start := ToDateMillisecond(value, START_OF_THE_DAY, now);
      var end := ToDateMillisecond(value, END_OF_THE_DAY, now);
      return Between(start, end);
    case DATE_AFTER_OR_EQUAL =>
      var edge := ToDateMillisecond(value, START_OF_THE_DAY, now);
      return From(edge);
    case DATE_AFTER =>
      var edge := ToDateMillisecond(value, END_OF_THE_DAY, now);
      return Above(edge);
  }

  predicate Numeric(r: Range)
  {
    match r
    case Below(hi) => hi.Number?
    case UpTo(hi) => hi.Number?
    case Between(lo, hi) => lo.Number? && hi.Number?
    case From(lo) => lo.Number?
    case Above(lo) => lo.Number?
  }

  predicate Contains(r: Range, x: int)
    requires Numeric(r)
  {
    match r
    case Below(hi) => x < hi.n as int
    case UpTo(hi) => x <= hi.n as int
    case Between(lo, hi) => lo.n as int <= x <= hi.n as int
    case From(lo) => lo.n as int <= x
    case Above(lo) => lo.n as int < x
  }

  predicate Matches(condition: DateCondition, n: long, x: int)
  {
    Contains(RangeFor(condition, Number(n)), x)
  }

  /** The first millisecond of the last, incomplete day of 64-bit time. */
  const LAST_DAY: int := 9223372036828800000

  /** Before, on and after the day: no time belongs to two of them or to none. */
  ghost predicate Partitioned(n: long)
  {
    forall x: int ::
      && (Matches(DATE_BEFORE, n, x) || Matches(DATE_EQUALS, n, x) || Matches(DATE_AFTER, n, x))
      && !(Matches(DATE_BEFORE, n, x) && Matches(DATE_EQUALS, n, x))
      && !(Matches(DATE_EQUALS, n, x) && Matches(DATE_AFTER, n, x))
      && !(Matches(DATE_BEFORE, n, x) && Matches(DATE_AFTER, n, x))
  }

  /** The inclusive conditions are the unions that their names say. */
  ghost predicate Inclusive(n: long)
  {
    forall x: int ::
      && (Matches(DATE_BEFORE_OR_EQUAL, n, x) <==> Matches(DATE_BEFORE, n, x) || Matches(DATE_EQUALS, n, x))
      && (Matches(DATE_AFTER_OR_EQUAL, n, x) <==> Matches(DATE_EQUALS, n, x) || Matches(DATE_AFTER, n, x))
  }

  /** For a positive time, DATE_EQUALS is exactly the UTC day of `n`, unless that
      day ends after the last 64-bit time. */
  lemma EqualsIsTheDay(n: long)
    requires n > 0
    ensures (forall x: int :: Matches(DATE_EQUALS, n, x) <==> x / ONE_DAY == (n as int) / ONE_DAY)
       <==> (n as int) < LAST_DAY
  {
    DayEndExact(n);
    if n as int >= LAST_DAY {
      assert n as int / ONE_DAY == n as int / ONE_DAY && !Matches(DATE_EQUALS, n, n as int);
    } else {
      forall x: int
        ensures Matches(DATE_EQUALS, n, x) <==> x / ONE_DAY == (n as int) / ONE_DAY
      {
        SameDay(n as int, x);
      }
    }
  }

  lemma SameDay(v: int, x: int)
    ensures x / ONE_DAY == v / ONE_DAY <==> DayStart(v) <= x <= DayStart(v) + ONE_DAY - 1
  {
    assert v == v / ONE_DAY * ONE_DAY + v % ONE_DAY;
    assert x == x / ONE_DAY * ONE_DAY + x % ONE_DAY;
  }

  /** The end of the day is representable, or wraps to a negative time. */
  lemma DayEndExact(n: long)
    requires n > 0
    ensures Wrap(DayStart(n as int)) as int == DayStart(n as int)
    ensures n as int < LAST_DAY ==> DayEnd(n as int) as int == DayStart(n as int) + ONE_DAY - 1
    ensures n as int >= LAST_DAY ==> DayStart(n as int) == LAST_DAY && DayEnd(n as int) < 0
  {
    var v := n as int;
    SameDay(v, v);
    SameDay(LAST_DAY, v);
    assert LAST_DAY % ONE_DAY == 0;
  }

  /** The three ranges partition time, and the inclusive ones are their unions,
      for every value that is not on the last day of 64-bit time; on that day
      "before" and "after" overlap. */
  lemma DateRangesPartitionTime(n: long)
    ensures Partitioned(n) <==> n as int < LAST_DAY
    ensures Inclusive(n) <==> n as int < LAST_DAY
  {
    if n > 0 {
      DayEndExact(n);
      if n as int >= LAST_DAY {
        assert Matches(DATE_BEFORE, n, 0) && Matches(DATE_AFTER, n, 0);
        assert Matches(DATE_BEFORE, n, 0) && !Matches(DATE_BEFORE_OR_EQUAL, n, 0);
      }
    }
  }

  /** What the conditions compare, for a positive value: UTC days. On the last day of
      64-bit time the day's end is a negative time, and the conditions that use it
      compare times with that. */
  lemma ConditionsCompareDays(n: long, x: int)
    requires n > 0
    ensures Matches(DATE_BEFORE, n, x) <==> x / ONE_DAY < n as int / ONE_DAY
    ensures Matches(DATE_AFTER_OR_EQUAL, n, x) <==> x / ONE_DAY >= n as int / ONE_DAY
    ensures n as int < LAST_DAY ==>
              && (Matches(DATE_EQUALS, n, x) <==> x / ONE_DAY == n as int / ONE_DAY)
              && (Matches(DATE_AFTER, n, x) <==> x / ONE_DAY > n as int / ONE_DAY)
              && (Matches(DATE_BEFORE_OR_EQUAL, n, x) <==> x / ONE_DAY <= n as int / ONE_DAY)
    ensures n as int >= LAST_DAY ==>
              var end := LAST_DAY + ONE_DAY - 1 - 0x1_0000_0000_0000_0000;
              && !Matches(DATE_EQUALS, n, x)
              && (Matches(DATE_AFTER, n, x) <==> x > end)
              && (Matches(DATE_BEFORE_OR_EQUAL, n, x) <==> x <= end)
  {
    DayEndExact(n);
    BeforeDay(n as int, x);
    BeforeDay(n as int + ONE_DAY, x);
    assert DayStart(n as int + ONE_DAY) == DayStart(n as int) + ONE_DAY;
  }

  lemma BeforeDay(v: int, x: int)
    ensures x / ONE_DAY < v / ONE_DAY <==> x < DayStart(v)
  {
    assert v == v / ONE_DAY * ONE_DAY + v % ONE_DAY;
    assert x == x / ONE_DAY * ONE_DAY + x % ONE_DAY;
  }

  /** A value that is not positive is compared as it is. */
  lemma ConditionsCompareTimes(n: long, x: int)
    requires n <= 0
    ensures Matches(DATE_BEFORE, n, x) <==> x < n as int
    ensures Matches(DATE_BEFORE_OR_EQUAL, n, x) <==> x <= n as int
    ensures Matches(DATE_EQUALS, n, x) <==> x == n as int
    ensures Matches(DATE_AFTER_OR_EQUAL, n, x) <==> x >= n as int
    ensures Matches(DATE_AFTER, n, x) <==> x > n as int
  {}
}
