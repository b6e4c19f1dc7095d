/** What the constructor, the three setters and the stream extraction
    operator do to a date's fields, as functions of the old triple. A
    thrown `std::invalid_argument` is a `Failure` naming its message; a
    failed operation has no new triple, so the old one stays. */
module Mutation {
  import opened Tables
  import opened Validity

  /** The `std::invalid_argument` messages: "Incorrect date", "Incorrect
      day", "Incorrect month", "Incorrect year". */
  datatype DateError = IncorrectDate | IncorrectDay | IncorrectMonth | IncorrectYear

  datatype Result<T> = Success(value: T) | Failure(error: DateError)

  /** The constructor: the triple if `check_date` accepts it. */
  function Constructed(day: int, month: int, year: int): (r: Result<DateValue>)
    ensures r.Success? ==> IsValid(r.value) && r.value == DateValue(day, month, year)
    ensures r.Failure? ==> r.error == IncorrectDate
  {
    if CheckDate(day, month, year) then Success(DateValue(day, month, year))
    else Failure(IncorrectDate)
  }

  /** `set_day`: checks the new day together with the current month and year. */
  function WithDay(v: DateValue, newDay: int): (r: Result<DateValue>)
    ensures r.Success? ==> IsValid(r.value) && r.value.day == newDay
    ensures r.Success? ==> r.value.month == v.month && r.value.year == v.year
    ensures r.Failure? ==> r.error == IncorrectDay
  {
    if CheckDate(newDay, v.month, v.year) then Success(v.(day := newDay))
    else Failure(IncorrectDay)
  }

  /** `set_month`: checks the new month together with the current day and year. */
  function WithMonth(v: DateValue, newMonth: int): (r: Result<DateValue>)
    ensures r.Success? ==> IsValid(r.value) && r.value.month == newMonth
    ensures r.Success? ==> r.value.day == v.day && r.value.year == v.year
    ensures r.Failure? ==> r.error == IncorrectMonth
  {
    if CheckDate(v.day, newMonth, v.year) then Success(v.(month := newMonth))
    else Failure(IncorrectMonth)
  }

  /** `set_year`: checks only that the new year is not negative. */
  function WithYear(v: DateValue, newYear: int): (r: Result<DateValue>)
    ensures r.Success? <==> newYear >= 0
    ensures r.Success? ==> r.value == DateValue(v.day, v.month, newYear)
    ensures r.Failure? ==> r.error == IncorrectYear
  {
    if newYear >= 0 then Success(v.(year := newYear))
    else Failure(IncorrectYear)
  }

  /** How `operator>>` ends: normally, with the stream's failbit set, or
      with the exception of the setter that threw. */
  datatype ReadStatus = Good | FailBit | Thrown(error: DateError)

  datatype ReadResult = ReadResult(value: DateValue, status: ReadStatus)

  /** The test `operator>>` applies to the tokens it extracted. It is
      weaker than `check_date`: it never rejects a real date written with
      two slashes, and it leaves the rest to the setters. */
  predicate TokensAccepted(day: int, delim1: char, month: int, delim2: char, year: int)
    ensures CheckDate(day, month, year) && delim1 == '/' && delim2 == '/' ==>
              TokensAccepted(day, delim1, month, delim2, year)
    ensures TokensAccepted(day, delim1, month, delim2, year) ==> day >= 1 && month >= 1 && year >= 0
  {
    delim1 == '/' && delim2 == '/' && day > 0 && month > 0 && year >= 0
  }

  /** `operator>>` on the already extracted tokens `day delim1 month delim2
      year`: if they pass the test, `set_day`, `set_month` and `set_year` run
      in that order, and a setter that throws stops the rest. */
  function Extracted(v: DateValue, day: int, delim1: char, month: int, delim2: char, year: int): (r: ReadResult)
    ensures r.status == FailBit || r.status == Thrown(IncorrectDay) ==> r.value == v
    ensures r.status == Good ==> r.value == DateValue(day, month, year)
    ensures r.status != Thrown(IncorrectYear) && r.status != Thrown(IncorrectDate)
  {
    if !TokensAccepted(day, delim1, month, delim2, year) then ReadResult(v, FailBit)
    else
      match WithDay(v, day)
      case Failure(e) => ReadResult(v, Thrown(e))
      case Success(v1) =>
        match WithMonth(v1, month)
        case Failure(e) => ReadResult(v1, Thrown(e))
        case Success(v2) =>
          match WithYear(v2, year)
          case Failure(e) => ReadResult(v2, Thrown(e))
          case Success(v3) => ReadResult(v3, Good)
  }

  /** Construction succeeds exactly on the dates `check_date` accepts, and
      then holds the given triple. */
  lemma ConstructedIffValid(day: int, month: int, year: int)
    ensures Constructed(day, month, year).Success? <==> CheckDate(day, month, year)
    ensures Constructed(day, month, year).Success? ==>
            Constructed(day, month, year).value == DateValue(day, month, year)
    ensures Constructed(DefaultDay, DefaultMonth, DefaultYear) == Success(DateValue(1, 1, 2024))
    ensures Constructed(32, 1, 2024) == Failure(IncorrectDate)
  {
  }

  /** `set_day` and `set_month` commit only a triple `check_date` accepts,
      and change only their own field. */
  lemma DayAndMonthSettersValidate(v: DateValue, x: int)
    ensures WithDay(v, x).Success? <==> CheckDate(x, v.month, v.year)
    ensures WithDay(v, x).Success? ==> IsValid(WithDay(v, x).value) && WithDay(v, x).value.day == x
    ensures WithDay(v, x).Success? ==>
            WithDay(v, x).value.month == v.month && WithDay(v, x).value.year == v.year
    ensures WithMonth(v, x).Success? <==> CheckDate(v.day, x, v.year)
    ensures WithMonth(v, x).Success? ==> IsValid(WithMonth(v, x).value) && WithMonth(v, x).value.month == x
    ensures WithMonth(v, x).Success? ==>
            WithMonth(v, x).value.day == v.day && WithMonth(v, x).value.year == v.year
  {
  }

  /** `set_year` succeeds exactly for a year >= 0, whatever the day and
      month, and then changes only the year. */
  lemma YearSetterChecksSign(v: DateValue, y: int)
    ensures WithYear(v, y).Success? <==> y >= 0
    ensures WithYear(v, y).Success? ==> WithYear(v, y).value == DateValue(v.day, v.month, y)
  {
  }

  /** `set_year` does not re-check the day: 29/2/2024 moves to 29/2/2023. */
  lemma YearSetterBreaksValidity()
    ensures IsValid(DateValue(29, 2, 2024))
    ensures WithYear(DateValue(29, 2, 2024), 2023) == Success(DateValue(29, 2, 2023))
    ensures !IsValid(DateValue(29, 2, 2023))
  {
  }

  /** ... and that leap day is the only validity `set_year` can lose. */
  lemma YearSetterLosesOnlyLeapDay(v: DateValue, y: int)
    requires IsValid(v) && WithYear(v, y).Success? && !IsValid(WithYear(v, y).value)
    ensures v.day == 29 && v.month == 2 && !IsLeapYear(y)
  {
    WellFormedCharacterisation(v);
    WellFormedCharacterisation(WithYear(v, y).value);
  }

  /** Every setter keeps the invariant a Date object has. */
  lemma SettersKeepWellFormed(v: DateValue, x: int)
    requires WellFormed(v)
    ensures WithDay(v, x).Success? ==> WellFormed(WithDay(v, x).value)
    ensures WithMonth(v, x).Success? ==> WellFormed(WithMonth(v, x).value)
    ensures WithYear(v, x).Success? ==> WellFormed(WithYear(v, x).value)
  {
    if WithDay(v, x).Success? {
      WellFormedCharacterisation(WithDay(v, x).value);
    }
    if WithMonth(v, x).Success? {
      WellFormedCharacterisation(WithMonth(v, x).value);
    }
  }

  /** Every outcome of `operator>>`: rejected tokens set the failbit and
      change nothing; otherwise `set_day` may throw (nothing changed),
      `set_month` may throw (the new day already written), and else all three
      new fields are in place. `set_year` never throws here. */
  lemma ExtractionOutcomes(v: DateValue, day: int, delim1: char, month: int, delim2: char, year: int)
    ensures var r := Extracted(v, day, delim1, month, delim2, year);
      && (r.status == FailBit <==> !TokensAccepted(day, delim1, month, delim2, year))
      && (r.status == FailBit ==> r.value == v)
      && (r.status == Thrown(IncorrectDay) <==>
            TokensAccepted(day, delim1, month, delim2, year) && !CheckDate(day, v.month, v.year))
      && (r.status == Thrown(IncorrectDay) ==> r.value == v)
      && (r.status == Thrown(IncorrectMonth) <==>
            TokensAccepted(day, delim1, month, delim2, year) && CheckDate(day, v.month, v.year) &&
            !CheckDate(day, month, v.year))
      && (r.status == Thrown(IncorrectMonth) ==> r.value == v.(day := day))
      && (r.status == Good ==> r.value == DateValue(day, month, year))
      && r.status != Thrown(IncorrectYear) && r.status != Thrown(IncorrectDate)
  {
  }

  /** `operator>>` keeps the invariant a Date object has. */
  lemma ExtractionKeepsWellFormed(v: DateValue, day: int, delim1: char, month: int, delim2: char, year: int)
    requires WellFormed(v)
    ensures WellFormed(Extracted(v, day, delim1, month, delim2, year).value)
  {
    SettersKeepWellFormed(v, day);
    if WithDay(v, day).Success? {
      var v1 := WithDay(v, day).value;
      SettersKeepWellFormed(v1, month);
      if WithMonth(v1, month).Success? {
        SettersKeepWellFormed(WithMonth(v1, month).value, year);
      }
    }
  }

  /** `operator>>` is not atomic: reading 30/2/2024 into 31/1/2024 writes
      the day, then `set_month` throws, leaving 30/1/2024, which is neither
      the old date nor the new one. */
  lemma ExtractionNotAtomic()
    ensures Extracted(DateValue(31, 1, 2024), 30, '/', 2, '/', 2024) ==
            ReadResult(DateValue(30, 1, 2024), Thrown(IncorrectMonth))
  {
  }

  /** Whether a valid date can be read depends on the date it overwrites:
      31/1/2024 reads into 1/1/2024 but not into 1/2/2024, where `set_day(31)`
      is checked against February. */
  lemma ExtractionDependsOnOldDate()
    ensures IsValid(DateValue(31, 1, 2024))
    ensures Extracted(DateValue(1, 1, 2024), 31, '/', 1, '/', 2024) ==
            ReadResult(DateValue(31, 1, 2024), Good)
    ensures Extracted(DateValue(1, 2, 2024), 31, '/', 1, '/', 2024) ==
            ReadResult(DateValue(1, 2, 2024), Thrown(IncorrectDay))
  {
  }

  /** `operator>>` can store an invalid date without any error: 29/2/2023
      read into 1/1/2024 passes `set_day` and `set_month` against the leap
      year 2024, then `set_year` moves it to 2023. */
  lemma ExtractionCanStoreInvalidDate()
    ensures Extracted(DateValue(1, 1, 2024), 29, '/', 2, '/', 2023) ==
            ReadResult(DateValue(29, 2, 2023), Good)
    ensures !IsValid(DateValue(29, 2, 2023))
  {
  }

  /** The setter and stream cases of the unit tests. */
  lemma SetterExamples()
    ensures WithDay(DateValue(1, 1, 2024), 15) == Success(DateValue(15, 1, 2024))
    ensures WithMonth(DateValue(15, 1, 2024), 6) == Success(DateValue(15, 6, 2024))
    ensures WithYear(DateValue(15, 6, 2024), 2020) == Success(DateValue(15, 6, 2020))
    ensures WithDay(DateValue(1, 1, 2024), 32) == Failure(IncorrectDay)
    ensures WithMonth(DateValue(1, 1, 2024), 13) == Failure(IncorrectMonth)
    ensures WithYear(DateValue(1, 1, 2024), -1) == Failure(IncorrectYear)
    ensures Extracted(DateValue(15, 6, 2020), 16, '/', 6, '/', 2020) == ReadResult(DateValue(16, 6, 2020), Good)
    ensures Extracted(DateValue(15, 6, 2020), 16, '-', 6, '-', 2020) == ReadResult(DateValue(15, 6, 2020), FailBit)
  {
  }
}
