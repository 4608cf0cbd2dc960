/** Proleptic Gregorian calendar arithmetic on day numbers (day 0 is 1970-01-01),
    the arithmetic Python's `datetime` performs. */
module Calendar {

  predicate IsLeapYear(y: int)
  {
    (y % 4 == 0 && y % 100 != 0) || y % 400 == 0
  }

  function DaysInMonth(y: int, m: int): int
    requires 1 <= m <= 12
  {
    if m == 2 then (if IsLeapYear(y) then 29 else 28)
    else if m == 4 || m == 6 || m == 9 || m == 11 then 30
    else 31
  }

  predicate ValidDate(y: int, m: int, d: int)
  {
    1 <= m <= 12 && 1 <= d <= DaysInMonth(y, m)
  }

  /** Day number of the civil date `y-m-d` (era-based conversion; `/` is floor
      division, as Dafny's Euclidean division is for a positive divisor). */
  function DaysFromCivil(y: int, m: int, d: int): int
    requires 1 <= m <= 12
  {
    var y' := if m <= 2 then y - 1 else y;
    var era := y' / 400;
    var yoe := y' - era * 400;
    var mp := if m > 2 then m - 3 else m + 9;
    var doy := (153 * mp + 2) / 5 + d - 1;
    var doe := yoe * 365 + yoe / 4 - yoe / 100 + doy;
    era * 146097 + doe - 719468
  }

  /** `datetime.weekday()`: Monday is 0 and Sunday is 6; 1970-01-01 was a Thursday. */
  function Weekday(day: int): (w: int)
    ensures 0 <= w < 7
  {
    (day + 3) % 7
  }

  /** The epoch is a Thursday and the 1st of March 2024 a Friday. */
  lemma {:induction false} WeekdayAnchors()
    ensures DaysFromCivil(1970, 1, 1) == 0 && Weekday(0) == 3
    ensures Weekday(DaysFromCivil(2024, 3, 1)) == 4
  {
    EpochDay();
    March2024Day();
    assert (19783 + 3) % 7 == 4;
  }

  lemma EpochDay()
    ensures DaysFromCivil(1970, 1, 1) == 0
  {
    assert 1969 / 400 == 4 && (153 * 10 + 2) / 5 == 306;
    assert 369 / 4 == 92 && 369 / 100 == 3;
  }

  lemma March2024Day()
    ensures DaysFromCivil(2024, 3, 1) == 19783
  {
    assert 2024 / 400 == 5 && 2 / 5 == 0;
    assert 24 / 4 == 6 && 24 / 100 == 0;
  }

  /** The weekday advances by one, cyclically, from one day to the next. */
  lemma WeekdayNext(day: int)
    ensures Weekday(day + 1) == (Weekday(day) + 1) % 7
  {
  }
}
