/** The weekday of a date by Zeller's congruence, as `get_day_name`
    computes it: January and February count as months 13 and 14 of the
    previous year. */
module Zeller {
  import opened Tables
  import opened Validity

  /** C++ `/` on int: the quotient rounded toward zero. */
  function TruncDiv(a: int, b: int): (q: int)
    requires b > 0
    ensures a >= 0 ==> b * q <= a < b * (q + 1)
    ensures a < 0 ==> b * (q - 1) < a <= b * q
  {
    if a >= 0 then a / b else -((-a) / b)
  }

  /** C++ `%` on int: what is left after the truncated quotient, so it has
      the sign of the dividend. */
  function TruncMod(a: int, b: int): (r: int)
    requires b > 0
    ensures a == b * TruncDiv(a, b) + r
    ensures a >= 0 ==> 0 <= r < b
    ensures a < 0 ==> -b < r <= 0
  {
    if a >= 0 then a % b else -((-a) % b)
  }

  /** `get_day_name`'s sum h before its remainder, as written, with C++'s
      truncating division. */
  function ZellerSumAsWritten(day: int, month: int, year: int): int
  {
    var m := if month < 3 then month + 12 else month;
    var y := if month < 3 then year - 1 else year;
    var k := TruncMod(y, 100);
    var j := TruncDiv(y, 100);
    day + TruncDiv(13 * (m + 1), 5) + k + TruncDiv(k, 4) + TruncDiv(j, 4) - 2 * j
  }

  /** `get_day_name`'s index as written: the truncated remainder of h by 7,
      normalised by `(h + 7) % 7`. */
  function DayIndexAsWritten(day: int, month: int, year: int): (i: int)
    ensures 0 <= i < 7
  {
    TruncMod(TruncMod(ZellerSumAsWritten(day, month, year), 7) + 7, 7)
  }

  /** Zeller's month term for a shifted month 3..14. */
  function MonthTerm(m: int): int
  {
    (13 * (m + 1)) / 5
  }

  /** Zeller's year term from the year of the century k and the century j. */
  function CenturyTerm(k: int, j: int): int
  {
    k + k / 4 + j / 4 - 2 * j
  }

  /** Zeller's year term for a shifted year, with floor division. */
  function YearTerm(y: int): int
  {
    CenturyTerm(y % 100, y / 100)
  }

  /** Zeller's sum for a date, with floor division: the day, the month
      term and the year term of the shifted month and year. */
  function ZellerSum(day: int, month: int, year: int): int
  {
    var m := if month < 3 then month + 12 else month;
    var y := if month < 3 then year - 1 else year;
    day + MonthTerm(m) + YearTerm(y)
  }

  /** The weekday index with floor division, which the rest of the model
      uses: 0 is Saturday, 1 Sunday, ..., 6 Friday. */
  function DayIndex(day: int, month: int, year: int): (i: int)
    ensures 0 <= i < 7
  {
    ZellerSum(day, month, year) % 7
  }

  /** The weekday name, by the corrected index. It is the name `get_day_name`
      returns on every valid date except those of January and February of
      year 0, as `DayNameMatchesSource` proves. */
  function DayName(day: int, month: int, year: int): (name: string)
    ensures name in DayNames
  {
    DayNames[DayIndex(day, month, year)]
  }

  /** Normalising a truncated remainder by `(r + 7) % 7` gives the floor remainder. */
  lemma NormalisedRemainder(x: int)
    ensures TruncMod(TruncMod(x, 7) + 7, 7) == x % 7
  {
    assert TruncMod(x, 7) + 7 == x - 7 * (TruncDiv(x, 7) - 1);
  }

  /** Whenever the shifted year is not negative, truncating and floor
      division give the same sum. */
  lemma SumsAgree(day: int, month: int, year: int)
    requires month >= 1 && (year >= 1 || (month >= 3 && year >= 0))
    ensures ZellerSumAsWritten(day, month, year) == ZellerSum(day, month, year)
  {
    var m := if month < 3 then month + 12 else month;
    var y := if month < 3 then year - 1 else year;
    var k, j := y % 100, y / 100;
    assert TruncMod(y, 100) == k && TruncDiv(y, 100) == j;
    assert TruncDiv(k, 4) == k / 4 && TruncDiv(j, 4) == j / 4;
    assert TruncDiv(13 * (m + 1), 5) == MonthTerm(m);
  }

  /** Hence the index as written is right on every well-formed date (every
      triple a Date object can hold) except those of January and February
      of year 0. */
  lemma AsWrittenAgrees(day: int, month: int, year: int)
    requires WellFormed(DateValue(day, month, year))
    requires year >= 1 || month >= 3
    ensures DayIndexAsWritten(day, month, year) == DayIndex(day, month, year)
  {
    SumsAgree(day, month, year);
    NormalisedRemainder(ZellerSum(day, month, year));
  }

  /** In the proleptic Gregorian calendar 1 January of year 0 is a Saturday. */
  lemma NewYearZeroIsSaturday()
    ensures DayIndex(1, 1, 0) == 0
  {
    assert ZellerSum(1, 1, 0) == 1 + 36 + 124 by {
      assert YearTerm(-1) == 124 by {
        assert (-1) % 100 == 99 && (-1) / 100 == -1;
      }
    }
  }

  /** 29 February of year 0 is a Tuesday. */
  lemma LeapDayZeroIsTuesday()
    ensures DayIndex(29, 2, 0) == 3
  {
    assert ZellerSum(29, 2, 0) == 29 + 39 + 124 by {
      assert YearTerm(-1) == 124 by {
        assert (-1) % 100 == 99 && (-1) / 100 == -1;
      }
    }
  }

  /** 1 March of year 0 is a Wednesday. */
  lemma MarchFirstZeroIsWednesday()
    ensures DayIndex(1, 3, 0) == 4
  {
    assert ZellerSum(1, 3, 0) == 1 + 10 + 0;
  }

  /** As written, the weekday goes wrong in January of year 0: 1/1/0 comes
      out a Sunday, although it is a Saturday, as the corrected index says. */
  lemma AsWrittenNewYearZero()
    ensures CheckDate(1, 1, 0)
    ensures DayIndexAsWritten(1, 1, 0) == 1 && DayIndex(1, 1, 0) == 0
  {
    assert ZellerSumAsWritten(1, 1, 0) == 1 + 36 - 1 + 0;
    NewYearZeroIsSaturday();
  }

  /** As written, 29/2/0 comes out a Wednesday. */
  lemma LeapDayZeroAsWrittenIsWednesday()
    ensures DayIndexAsWritten(29, 2, 0) == 4
  {
    assert ZellerSumAsWritten(29, 2, 0) == 29 + 39 - 1 + 0;
  }

  /** As written, 29/2/0 and 1/3/0, two consecutive valid dates, come out
      the same weekday; the corrected indices are consecutive. */
  lemma AsWrittenLeapDayZero()
    ensures CheckDate(29, 2, 0) && CheckDate(1, 3, 0)
    ensures DayIndexAsWritten(29, 2, 0) == DayIndexAsWritten(1, 3, 0)
    ensures DayIndex(1, 3, 0) == (DayIndex(29, 2, 0) + 1) % 7
  {
    LeapDayZeroAsWrittenIsWednesday();
    AsWrittenAgrees(1, 3, 0);
    LeapDayZeroIsTuesday();
    MarchFirstZeroIsWednesday();
    assert (3 + 1) % 7 == 4;
  }

  /** As written, every date of January and February of year 0 comes out
      one weekday late: the shifted year -1 gives a truncated sum 125 below
      the floor one, and -125 is 1 modulo 7. */
  lemma AsWrittenYearZeroShift(day: int, month: int)
    requires 1 <= month <= 2
    ensures DayIndexAsWritten(day, month, 0) == (DayIndex(day, month, 0) + 1) % 7
  {
    assert TruncMod(-1, 100) == -1 && TruncDiv(-1, 100) == 0;
    assert TruncDiv(13 * (month + 13), 5) == MonthTerm(month + 12);
    assert YearTerm(-1) == 124 by {
      assert (-1) % 100 == 99 && (-1) / 100 == -1;
    }
    assert ZellerSumAsWritten(day, month, 0) == ZellerSum(day, month, 0) - 125;
    NormalisedRemainder(ZellerSumAsWritten(day, month, 0));
    NextRemainder(ZellerSum(day, month, 0), ZellerSumAsWritten(day, month, 0));
  }

  /** Adding one to x moves x / 4 on exactly when x + 1 is a multiple of 4. */
  lemma QuarterStep(x: int)
    ensures (x + 1) / 4 - x / 4 == (if (x + 1) % 4 == 0 then 1 else 0)
  {
  }

  /** The year term of year k of century j. */
  lemma YearTermSplit(j: int, k: int)
    requires 0 <= k < 100
    ensures YearTerm(100 * j + k) == CenturyTerm(k, j)
  {
    CenturySplit(j, k);
  }

  /** Within century j the year term grows by one, or by two when the next
      year is a leap year. */
  lemma CenturyYearStep(j: int, k: int)
    requires 0 <= k < 99
    ensures YearTerm(100 * j + k + 1) - YearTerm(100 * j + k) ==
            (if IsLeapYear(100 * j + k + 1) then 2 else 1)
  {
    YearTermSplit(j, k);
    YearTermSplit(j, k + 1);
    LeapSplit(j, k + 1);
    QuarterStep(k);
  }

  /** From the last year of century j to the first of century j + 1 the
      year term drops by 124 or 125, one or two more than a multiple of seven. */
  lemma CenturyEndStep(j: int)
    ensures YearTerm(100 * (j + 1)) - YearTerm(100 * j + 99) ==
            (if IsLeapYear(100 * (j + 1)) then 2 else 1) - 126
  {
    YearTermSplit(j, 99);
    YearTermSplit(j + 1, 0);
    LeapSplit(j + 1, 0);
    QuarterStep(j);
  }

  /** Shifted year y runs from March of y to February of y + 1, so it has
      366 days exactly when y + 1 is a leap year. Moving to the next shifted
      year moves the weekday on by that length, one day or two: the year term
      grows by that amount, less 126 (eighteen weeks) at a century. */
  lemma YearTermStep(y: int)
    ensures YearTerm(y + 1) - YearTerm(y) ==
            (if IsLeapYear(y + 1) then 2 else 1) - (if (y + 1) % 100 == 0 then 126 else 0)
  {
    if y % 100 < 99 {
      YearTermStepWithinCentury(y);
    } else {
      YearTermStepAtCentury(y);
    }
  }

  lemma YearTermStepWithinCentury(y: int)
    requires y % 100 < 99
    ensures YearTerm(y + 1) - YearTerm(y) == (if IsLeapYear(y + 1) then 2 else 1)
    ensures (y + 1) % 100 != 0
  {
    var j, k := y / 100, y % 100;
    CenturyYearStep(j, k);
    CenturySplit(j, k + 1);
  }

  lemma YearTermStepAtCentury(y: int)
    requires y % 100 == 99
    ensures YearTerm(y + 1) - YearTerm(y) == (if IsLeapYear(y + 1) then 2 else 1) - 126
    ensures (y + 1) % 100 == 0
  {
    var j := y / 100;
    assert y + 1 == 100 * (j + 1);
    CenturyEndStep(j);
    CenturySplit(j + 1, 0);
  }

  /** A difference of one modulo seven moves the remainder on by one. */
  lemma NextRemainder(a: int, b: int)
    requires (b - a) % 7 == 1
    ensures b % 7 == (a % 7 + 1) % 7
  {
    var d := (b - a) / 7;
    assert b - a == 7 * d + 1;
    assert b == 7 * (a / 7 + d) + (a % 7 + 1);
  }

  /** Consecutive days within a month have consecutive weekdays. */
  lemma NextDayWithinMonth(day: int, month: int, year: int)
    requires CheckDate(day, month, year) && CheckDate(day + 1, month, year)
    ensures DayIndex(day + 1, month, year) == (DayIndex(day, month, year) + 1) % 7
  {
    assert ZellerSum(day + 1, month, year) - ZellerSum(day, month, year) == 1;
    NextRemainder(ZellerSum(day, month, year), ZellerSum(day + 1, month, year));
  }

  /** From the end of February to 1 March the sum moves back by 55, or by
      181 in a century year: one more than a multiple of seven either way. */
  lemma FebruaryGap(year: int)
    ensures ZellerSum(1, 3, year) - ZellerSum(DaysInMonth(2, year), 2, year) ==
            if year % 100 == 0 then -181 else -55
  {
    assert ZellerSum(DaysInMonth(2, year), 2, year) == DaysInMonth(2, year) + 39 + YearTerm(year - 1);
    YearTermStep(year - 1);
  }

  /** 1 March follows the last day of February, 28 or 29 February. */
  lemma NextDayAcrossFebruary(year: int)
    ensures DayIndex(1, 3, year) == (DayIndex(DaysInMonth(2, year), 2, year) + 1) % 7
  {
    FebruaryGap(year);
    NextRemainder(ZellerSum(DaysInMonth(2, year), 2, year), ZellerSum(1, 3, year));
  }

  /** 1 February follows 31 January; both belong to the previous shifted year. */
  lemma NextDayAcrossJanuary(year: int)
    ensures DayIndex(1, 2, year) == (DayIndex(31, 1, year) + 1) % 7
  {
    assert ZellerSum(1, 2, year) - ZellerSum(31, 1, year) == -27;
    NextRemainder(ZellerSum(31, 1, year), ZellerSum(1, 2, year));
  }

  /** From March to November the month term grows by the month's length
      modulo seven. The branches split the cases for the solver; each month
      is then a computation. */
  lemma MonthTermGap(month: int)
    requires 3 <= month <= 11
    ensures var gap := 1 + MonthTerm(month + 1) - MonthLengths[month - 1] - MonthTerm(month);
      gap == -27 || gap == -20
  {
    if month == 3 {
    } else if month == 4 {
    } else if month == 5 {
    } else if month == 6 {
    } else if month == 7 {
    } else if month == 8 {
    } else if month == 9 {
    } else if month == 10 {
    } else {
    }
  }

  /** The 1st of April to December follows the last day of the month before. */
  lemma NextDayAcrossLongMonth(month: int, year: int)
    requires 3 <= month <= 11
    ensures DayIndex(1, month + 1, year) == (DayIndex(MonthLengths[month - 1], month, year) + 1) % 7
  {
    var a := ZellerSum(MonthLengths[month - 1], month, year);
    var b := ZellerSum(1, month + 1, year);
    MonthTermGap(month);
    assert b - a == 1 + MonthTerm(month + 1) - MonthLengths[month - 1] - MonthTerm(month);
    NextRemainder(a, b);
  }

  /** The first of a month follows the last day of the month before. */
  lemma NextDayAcrossMonth(month: int, year: int)
    requires 1 <= month < 12 && year >= 0
    ensures CheckDate(DaysInMonth(month, year), month, year) && CheckDate(1, month + 1, year)
    ensures DayIndex(1, month + 1, year) == (DayIndex(DaysInMonth(month, year), month, year) + 1) % 7
  {
    var last := DaysInMonth(month, year);
    CheckDateIsGregorian(last, month, year);
    CheckDateIsGregorian(1, month + 1, year);
    if month == 1 {
      NextDayAcrossJanuary(year);
    } else if month == 2 {
      NextDayAcrossFebruary(year);
    } else {
      NextDayAcrossLongMonth(month, year);
    }
  }

  /** New Year's Day follows 31 December. */
  lemma NextDayAcrossYear(year: int)
    requires year >= 0
    ensures CheckDate(31, 12, year) && CheckDate(1, 1, year + 1)
    ensures DayIndex(1, 1, year + 1) == (DayIndex(31, 12, year) + 1) % 7
  {
    assert ZellerSum(1, 1, year + 1) - ZellerSum(31, 12, year) == -27;
    NextRemainder(ZellerSum(31, 12, year), ZellerSum(1, 1, year + 1));
  }

  /** `get_day_name` as written returns the same name as `DayName` on every
      well-formed date outside January and February of year 0. */
  lemma DayNameMatchesSource(day: int, month: int, year: int)
    requires WellFormed(DateValue(day, month, year))
    requires year >= 1 || month >= 3
    ensures DayNames[DayIndexAsWritten(day, month, year)] == DayName(day, month, year)
  {
    AsWrittenAgrees(day, month, year);
  }

  lemma DayNameExamples()
    ensures DayName(15, 6, 2020) == "Monday"
    ensures DayName(1, 1, 2024) == "Monday"
    ensures DayName(4, 7, 1776) == "Thursday"
    ensures DayName(1, 1, 2000) == "Saturday"
  {
    assert DayIndex(15, 6, 2020) == 2 by { assert ZellerSum(15, 6, 2020) == 15 + 18 + (20 + 5 + 5 - 40); }
    assert DayIndex(1, 1, 2024) == 2 by { assert ZellerSum(1, 1, 2024) == 1 + 36 + (23 + 5 + 5 - 40); }
    assert DayIndex(4, 7, 1776) == 5 by { assert ZellerSum(4, 7, 1776) == 4 + 20 + (76 + 19 + 4 - 34); }
    assert DayIndex(1, 1, 2000) == 0 by { assert ZellerSum(1, 1, 2000) == 1 + 36 + (99 + 24 + 4 - 38); }
  }
}
