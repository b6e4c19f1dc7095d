/** The calendar rules of the Date class: the leap-year rule, `check_date`,
    and the weaker invariant that every Date object actually keeps. */
module Validity {
  import opened Tables

  /** The (day, month, year) triple a Date object holds. */
  datatype DateValue = DateValue(day: int, month: int, year: int)

  /** Gregorian rule: divisible by 4 and not by 100, or divisible by 400. */
  predicate IsLeapYear(year: int)
    ensures IsLeapYear(year) ==> year % 4 == 0
    ensures year % 400 == 0 ==> IsLeapYear(year)
  {
    (year % 4 == 0 && year % 100 != 0) || year % 400 == 0
  }

  /** `check_date`: the month range is tested before the table is indexed;
      the 29th is always admitted in a leap year. */
  predicate CheckDate(day: int, month: int, year: int)
    ensures CheckDate(day, month, year) ==> 1 <= day <= 31 && 1 <= month <= 12 && year >= 0
  {
    year >= 0 && month > 0 && month < 13 && day > 0 &&
    (day <= MonthLengths[month - 1] || (day == 29 && IsLeapYear(year)))
  }

  predicate IsValid(v: DateValue)
  {
    CheckDate(v.day, v.month, v.year)
  }

  /** Reference month lengths: thirty days have September, April, June and
      November; February has 29 in a leap year and 28 otherwise; the rest 31. */
  function DaysInMonth(month: int, year: int): (n: int)
    requires 1 <= month <= 12
    ensures 28 <= n <= 31
    ensures n == 29 <==> month == 2 && IsLeapYear(year)
  {
    if month == 2 then (if IsLeapYear(year) then 29 else 28)
    else if month == 4 || month == 6 || month == 9 || month == 11 then 30
    else 31
  }

  /** `check_date` accepts exactly the real Gregorian dates of years >= 0,
      although it never tests `month == 2` before granting the 29th. */
  lemma CheckDateIsGregorian(day: int, month: int, year: int)
    ensures CheckDate(day, month, year) <==>
            year >= 0 && 1 <= month <= 12 && 1 <= day <= DaysInMonth(month, year)
  {
    if 1 <= month <= 12 {
      assert MonthLengths[month - 1] == DaysInMonth(month, year) ||
             (month == 2 && MonthLengths[1] == 28);
    }
  }

  /** Year k of century j: its century, its year of the century, and its
      remainder by 4. */
  lemma CenturySplit(j: int, k: int)
    requires 0 <= k < 100
    ensures (100 * j + k) / 100 == j && (100 * j + k) % 100 == k
    ensures (100 * j + k) % 4 == k % 4
  {
    assert 100 * j + k == 4 * (25 * j + k / 4) + k % 4;
  }

  /** The leap-year rule by century: year 100 * j + k is a leap year
      exactly when j is a multiple of 4 (for k == 0) or k is (otherwise). */
  lemma LeapSplit(j: int, k: int)
    requires 0 <= k < 100
    ensures IsLeapYear(100 * j + k) <==> if k == 0 then j % 4 == 0 else k % 4 == 0
  {
    CenturySplit(j, k);
    if k == 0 {
      assert 100 * j == 400 * (j / 4) + 100 * (j % 4);
    }
  }

  lemma LeapYearExamples()
    ensures IsLeapYear(2024) && !IsLeapYear(2023)
    ensures !IsLeapYear(1900) && IsLeapYear(2000)
  {
  }

  lemma CheckDateExamples()
    ensures CheckDate(DefaultDay, DefaultMonth, DefaultYear)
    ensures CheckDate(25, 12, 2023) && CheckDate(29, 2, 2024)
    ensures !CheckDate(29, 2, 2023) && !CheckDate(31, 4, 2024)
    ensures !CheckDate(0, 1, 2024) && !CheckDate(32, 1, 2024)
    ensures !CheckDate(1, 13, 2024) && !CheckDate(1, 1, -1)
  {
  }

  /** What every Date object keeps: a month in range, a day in range for
      that month in SOME year, and a non-negative year. */
  predicate WellFormed(v: DateValue)
  {
    v.year >= 0 && 1 <= v.month <= 12 && v.day >= 1 &&
    (v.day <= MonthLengths[v.month - 1] || v.day == 29)
  }

  /** Every valid date is well formed, and the only well-formed triple that
      `check_date` rejects is 29 February of a common year. */
  lemma WellFormedCharacterisation(v: DateValue)
    ensures IsValid(v) ==> WellFormed(v)
    ensures WellFormed(v) && !IsValid(v) <==>
            v.year >= 0 && v.day == 29 && v.month == 2 && !IsLeapYear(v.year)
  {
    if WellFormed(v) && v.day == 29 && v.month != 2 {
      assert MonthLengths[v.month - 1] >= 30;
    }
  }
}
