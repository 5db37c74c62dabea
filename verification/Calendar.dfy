/** The proleptic Gregorian calendar of `Date.UTC` and the getUTC* methods (section 21.4.1 of ECMA-262). */
module Calendar {
  datatype Date = Date(y: int, mo: int, d: int)

  predicate Leap(y: int) { y % 4 == 0 && (y % 100 != 0 || y % 400 == 0) }

  function DaysIn(y: int, mo: int): int {
    if mo == 2 then (if Leap(y) then 29 else 28)
    else if mo in {4, 6, 9, 11} then 30
    else 31
  }

  predicate ValidDate(t: Date) { 1 <= t.mo <= 12 && 1 <= t.d <= DaysIn(t.y, t.mo) }

  function Next(t: Date): Date {
    if t.d < DaysIn(t.y, t.mo) then t.(d := t.d + 1)
    else if t.mo < 12 then Date(t.y, t.mo + 1, 1)
    else Date(t.y + 1, 1, 1)
  }

  function Previous(t: Date): Date {
    if t.d > 1 then t.(d := t.d - 1)
    else if t.mo > 1 then Date(t.y, t.mo - 1, DaysIn(t.y, t.mo - 1))
    else Date(t.y - 1, 12, 31)
  }

  /** Days from 1970-01-01 to January 1 of y. */
  function YearStart(y: int): int {
    365 * (y - 1970) + (y - 1969) / 4 - (y - 1901) / 100 + (y - 1601) / 400
  }

  function MonthStart(y: int, mo: int): int
    requires 1 <= mo <= 12
  {
    [0, 31, 59, 90, 120, 151, 181, 212, 243, 273, 304, 334][mo - 1] + if mo > 2 && Leap(y) then 1 else 0
  }

  /** Date.UTC(y, mo - 1, d) in days. */
  function DayNumber(t: Date): int
    requires 1 <= t.mo <= 12
  {
    YearStart(t.y) + MonthStart(t.y, t.mo) + t.d - 1
  }

  function Forward(t: Date, k: nat): Date
    decreases k
  {
    if k == 0 then t else Forward(Next(t), k - 1)
  }

  function Backward(t: Date, k: nat): Date
    decreases k
  {
    if k == 0 then t else Backward(Previous(t), k - 1)
  }

  /** The date n days after 1970-01-01. */
  function Civil(n: int): Date {
    if n >= 0 then Forward(Date(1970, 1, 1), n) else Backward(Date(1970, 1, 1), -n)
  }

  lemma FourthYears(y: int)
    ensures (y - 1968) / 4 - (y - 1969) / 4 == if y % 4 == 0 then 1 else 0
  {
  }

  lemma Centuries(y: int)
    ensures (y - 1900) / 100 - (y - 1901) / 100 == if y % 100 == 0 then 1 else 0
    ensures y % 100 == 0 ==> y % 4 == 0
  {
  }

  lemma FourthCenturies(y: int)
    ensures (y - 1600) / 400 - (y - 1601) / 400 == if y % 400 == 0 then 1 else 0
    ensures y % 400 == 0 ==> y % 100 == 0
  {
  }

  lemma YearLength(y: int)
    ensures YearStart(y + 1) - YearStart(y) == (if Leap(y) then 366 else 365)
  {
    FourthYears(y);
    Centuries(y);
    FourthCenturies(y);
  }

  lemma NextIsOneDayLater(t: Date)
    requires ValidDate(t)
    ensures ValidDate(Next(t)) && DayNumber(Next(t)) == DayNumber(t) + 1
  {
    YearLength(t.y);
  }

  lemma PreviousThenNext(t: Date)
    requires ValidDate(t)
    ensures ValidDate(Previous(t)) && Next(Previous(t)) == t
  {
  }

  lemma StepBack(t: Date)
    requires ValidDate(t)
    ensures ValidDate(Previous(t)) && DayNumber(Previous(t)) == DayNumber(t) - 1
  {
    PreviousThenNext(t);
    NextIsOneDayLater(Previous(t));
  }

  lemma {:induction false} ForwardDays(t: Date, k: nat)
    requires ValidDate(t)
    ensures ValidDate(Forward(t, k)) && DayNumber(Forward(t, k)) == DayNumber(t) + k
    decreases k
  {
    if k > 0 {
      NextIsOneDayLater(t);
      ForwardDays(Next(t), k - 1);
    }
  }

  lemma {:induction false} BackwardDays(t: Date, k: nat)
    requires ValidDate(t)
    ensures ValidDate(Backward(t, k)) && DayNumber(Backward(t, k)) == DayNumber(t) - k
    decreases k
  {
    if k > 0 {
      StepBack(t);
      BackwardDays(Previous(t), k - 1);
    }
  }

  lemma EpochIsDayZero()
    ensures ValidDate(Date(1970, 1, 1)) && DayNumber(Date(1970, 1, 1)) == 0
  {
  }

  /** Reading a day number as a date and back loses nothing, so different days are different dates. */
  lemma DayNumberOfCivil(n: int)
    ensures ValidDate(Civil(n)) && DayNumber(Civil(n)) == n
  {
    EpochIsDayZero();
    if n >= 0 {
      ForwardDays(Date(1970, 1, 1), n);
    } else {
      BackwardDays(Date(1970, 1, 1), -n);
    }
  }

  /** getUTCDay(): 1970-01-01 was a Thursday. */
  function Weekday(n: int): int { (n + 4) % 7 }

  /** The weekday starts on Thursday, counted from Sunday 0, and goes round by one a day. */
  lemma WeekdayCycle(n: int)
    ensures Weekday(0) == 4 && 0 <= Weekday(n) < 7
    ensures Weekday(n + 1) == if Weekday(n) == 6 then 0 else Weekday(n) + 1
  {
  }

  lemma DayOfYear(t: Date)
    requires ValidDate(t)
    ensures YearStart(t.y) <= DayNumber(t) < YearStart(t.y + 1)
  {
    YearLength(t.y);
  }

  lemma {:induction false} YearsAscend(y: int, z: int)
    requires y < z
    ensures YearStart(y + 1) <= YearStart(z)
    decreases z - y
  {
    if y + 1 < z {
      YearLength(y + 1);
      YearsAscend(y + 1, z);
    }
  }

  /** The first day of one month lies after the last of the month before. */
  lemma MonthsAscend(y: int, mo: int, mo': int)
    requires 1 <= mo < mo' <= 12
    ensures MonthStart(y, mo) + DaysIn(y, mo) <= MonthStart(y, mo')
  {
  }

  lemma OneYearOfDay(n: int, y: int, z: int)
    requires YearStart(y) <= n < YearStart(y + 1) && YearStart(z) <= n < YearStart(z + 1)
    ensures y == z
  {
    if y < z { YearsAscend(y, z); }
    if z < y { YearsAscend(z, y); }
  }

  lemma SameDaySameYear(t: Date, u: Date)
    requires ValidDate(t) && ValidDate(u) && DayNumber(t) == DayNumber(u)
    ensures t.y == u.y
  {
    var n := DayNumber(t);
    assert YearStart(t.y) <= n < YearStart(t.y + 1) by { DayOfYear(t); }
    assert YearStart(u.y) <= n < YearStart(u.y + 1) by { DayOfYear(u); }
    OneYearOfDay(n, t.y, u.y);
  }

  /** No two dates have one day number. */
  lemma SameDaySameDate(t: Date, u: Date)
    requires ValidDate(t) && ValidDate(u) && DayNumber(t) == DayNumber(u)
    ensures t == u
  {
    SameDaySameYear(t, u);
    if t.mo < u.mo { MonthsAscend(t.y, t.mo, u.mo); }
    if u.mo < t.mo { MonthsAscend(t.y, u.mo, t.mo); }
  }

  /** Each date is read off its day number, and the day after it off the next. */
  lemma CivilOfDayNumber(t: Date)
    requires ValidDate(t)
    ensures Civil(DayNumber(t)) == t
  {
    DayNumberOfCivil(DayNumber(t));
    SameDaySameDate(Civil(DayNumber(t)), t);
  }
}
