# Date class model

This project models the C++ `Date` class of the Date-Class repository in
Dafny. A `Date` holds a day, a month and a year. The constructor, `set_day`
and `set_month` accept a new value only if `check_date` passes;
`set_year` checks only that the year is not negative. That check is the
Gregorian leap-year rule applied to a table of month lengths. The class
also names the weekday with Zeller's congruence, prints the date in three
integer-coded formats, compares dates with six operators, and reads
`D/M/Y` from a stream.

Modules, one concept each:

- `Tables` (`tables.dfy`): the constant tables of `src/Date.hpp`. These
  are the month lengths and names, the weekday names, and the default
  constructor arguments 1/1/2024.
- `Validity` (`validity.dfy`): `IsLeapYear` and `CheckDate`, plus
  `DaysInMonth`, a reference month-length rule written without the table.
  It also defines `WellFormed`, the invariant objects really keep.
  `CheckDate` tests the month range before indexing the table, and Dafny
  checks that the index is always in bounds.
- `Zeller` (`zeller.dfy`): the weekday index.
  - It is computed twice: once with C++'s truncating `/` and `%`
    (`DayIndexAsWritten`), and once with floor division (`DayIndex`).
  - On well-formed dates (every triple a `Date` object can hold) the two
    differ only in January and February of year 0 (see "## Findings").
  - `DayIndex` is checked against the calendar. Lemmas prove that
    consecutive days get consecutive weekdays within a month, across a
    month boundary (February included, leap or not) and across a year
    boundary. Known dates anchor the count.
- `Decimal` (`decimal.dfy`): `std::to_string` as `NatToString` and
  `IntToString`, and `NumeralValue`, which reads the digits back.
- `Formatting` (`formatting.dfy`): `get_formatted_date` as `FormattedDate`.
  `ReadBack` is the inverse of format 1.
- `Ordering` (`ordering.dfy`): the six comparison operators on two
  triples. `Rank` places every date on one number line and serves as the
  independent reference.
- `Mutation` (`mutation.dfy`): the constructor, the setters and
  `operator>>` as functions of the old triple.
  - A thrown `std::invalid_argument` becomes `Failure` with the message
    as a `DateError`.
  - `operator>>` ends in `Good`, in `FailBit` or in `Thrown`.
- `Dates` (`date.dfy`): `class Date`.
  - It has the three fields and methods that update them in place.
  - Each method's `ensures` gives the new triple. For each setter,
    `Create` and `Extract` it ties that triple to the `Mutation` function.
  - `Valid()` is the invariant that every method keeps.

The getters `get_day`, `get_month` and `get_year` only read a field. In
the model they are the class's fields themselves.

Four behaviours of the code shape the model. `set_year` checks only that
the year is not negative and does not re-check the day (src/Date.cpp:80).
`operator<` compares the day with `<=` (src/Date.cpp:167), so every date is
`<` itself and `>=` answers as `>` (src/Date.cpp:177). The output formats
are integer codes with a fallback text (src/Date.cpp:107-130). `operator>>`
calls the three setters one after another, so a setter that throws leaves
the earlier ones' changes in place (src/Date.cpp:194-196).

## Model

| member | source | states |
|---|---|---|
| `Tables.MonthTableShape` | src/Date.hpp:10-24 | The month table has 12 lengths, each from 28 to 31. Only February (index 1) has 28, and the lengths add up to 365. |
| `Tables.MonthNameIndexing` | src/Date.hpp:10-24 | Month names are indexed by month minus one: January at 0, June at 5, December at 11. |
| `Tables.DayNameIndexing` | src/Date.hpp:26-35 | Seven weekday names: 0 is Saturday, 1 Sunday, 2 Monday, and so on up to 6, Friday. |
| `Validity.IsLeapYear` | src/Date.cpp:144 | A leap year is a multiple of 4, and every multiple of 400 is a leap year; `Validity.LeapSplit` gives the exact rule for every year. |
| `Validity.CheckDate` | src/Date.cpp:134-147 | An accepted triple has day 1..31, month 1..12 and year >= 0; `Validity.CheckDateIsGregorian` gives the exact rule. |
| `Validity.CheckDateIsGregorian` | src/Date.cpp:134-147 | `check_date` accepts exactly year >= 0, month 1..12 and day 1..DaysInMonth(month, year). DaysInMonth is the independent rule: 29 days in a leap February, 28 otherwise, 30 in April, June, September and November, 31 in the rest. |
| `Validity.LeapSplit` | src/Date.cpp:144 | Year 100 * j + k (0 <= k < 100) is a leap year exactly when k is a multiple of 4, or, for k == 0, when j is. |
| `Validity.LeapYearExamples` | src/Date.cpp:144 | 2024 and 2000 are leap years; 2023 and 1900 are not. |
| `Validity.CheckDateExamples` | src/Date.cpp:134-147 | The default date and 25/12/2023 are valid, and so is 29/2/2024. 29/2/2023, 31/4/2024, 0/1/2024, 32/1/2024, month 13 and year -1 are rejected. |
| `Validity.WellFormedCharacterisation` | src/Date.cpp:134-147 | Every valid date is well formed. The only well-formed triple that `check_date` rejects is 29 February of a common year. |
| `Zeller.TruncDiv` | src/Date.cpp:95-98 | The C++ quotient rounds toward zero: for a >= 0 it is the largest q with b * q <= a, and for a < 0 the smallest q with a <= b * q. |
| `Zeller.TruncMod` | src/Date.cpp:95-98 | The C++ remainder completes the quotient, a == b * (a / b) + a % b, so it has the sign of the dividend and a magnitude below the divisor. |
| `Zeller.DayIndexAsWritten` | src/Date.cpp:86-102 | `get_day_name` as written, with truncating arithmetic. After the `(x + 7) % 7` normalisation, the index is always in 0..6. |
| `Zeller.DayIndex` | src/Date.cpp:86-102 | The corrected weekday index, with floor division, is always in 0..6. |
| `Zeller.DayName` | src/Date.cpp:86-102 | The weekday returned is always one of the seven table names. It uses the corrected index; see "## Left out". |
| `Zeller.DayNameMatchesSource` | src/Date.cpp:86-102 | On every well-formed date outside January and February of year 0, the name the code as written returns is `DayName`. |
| `Zeller.NormalisedRemainder` | src/Date.cpp:98-99 | `(x % 7 + 7) % 7` in C++ arithmetic equals the floor remainder of x by 7. |
| `Zeller.AsWrittenAgrees` | src/Date.cpp:89-99 | For every well-formed date except January and February of year 0, the as-written index equals the corrected one. |
| `Zeller.AsWrittenNewYearZero` | src/Date.cpp:89-99 | As written, the valid date 1/1/0 comes out as Sunday (index 1), while the corrected index gives Saturday (0). |
| `Zeller.LeapDayZeroAsWrittenIsWednesday` | src/Date.cpp:89-99 | As written, 29/2/0 comes out a Wednesday (index 4). |
| `Zeller.AsWrittenYearZeroShift` | src/Date.cpp:89-99 | As written, every date of January and February of year 0 comes out exactly one weekday after the corrected index. |
| `Zeller.AsWrittenLeapDayZero` | src/Date.cpp:89-99 | As written, the consecutive valid dates 29/2/0 and 1/3/0 come out as the same weekday; the corrected indices are consecutive. |
| `Zeller.NewYearZeroIsSaturday` | src/Date.cpp:86-102 | In the corrected index 1/1/0 is a Saturday, as in the proleptic Gregorian calendar. |
| `Zeller.LeapDayZeroIsTuesday` | src/Date.cpp:86-102 | In the corrected index 29/2/0 is a Tuesday. |
| `Zeller.MarchFirstZeroIsWednesday` | src/Date.cpp:86-102 | In the corrected index 1/3/0 is a Wednesday. |
| `Zeller.SumsAgree` | src/Date.cpp:89-98 | Whenever the month is at least 1 and the shifted year is not negative, the sum h computed with truncating division equals the one computed with floor division. |
| `Zeller.YearTermStep` | src/Date.cpp:95-98 | From one shifted year to the next, the year term grows by 2 when the new year is a leap year and by 1 otherwise. At a century it also drops by 126, eighteen whole weeks, so the weekday still moves on by one or two days. |
| `Zeller.YearTermStepWithinCentury` | src/Date.cpp:95-98 | Inside a century the year term grows by 1, or by 2 into a leap year, and the next year is not a century year. |
| `Zeller.YearTermStepAtCentury` | src/Date.cpp:95-98 | From year 99 of a century to the next century year, the year term changes by 1 or 2 (2 into a leap year) less 126. |
| `Zeller.FebruaryGap` | src/Date.cpp:89-98 | From the last day of February to 1 March, Zeller's sum drops by 55, or by 181 in a century year. Both are one more than a multiple of seven. |
| `Zeller.NextDayAcrossJanuary` | src/Date.cpp:89-99 | 1 February comes one weekday after 31 January. |
| `Zeller.NextDayAcrossLongMonth` | src/Date.cpp:89-99 | For March to November, the 1st of the next month comes one weekday after the last day of the month. |
| `Zeller.NextDayWithinMonth` | src/Date.cpp:89-99 | Two consecutive valid days of the same month have consecutive weekday indices. |
| `Zeller.NextDayAcrossFebruary` | src/Date.cpp:89-99 | 1 March comes one weekday after the last day of February, whether that is the 28th or the 29th. |
| `Zeller.NextDayAcrossMonth` | src/Date.cpp:89-99 | The 1st of each month from February to December comes one weekday after the last day of the month before. |
| `Zeller.NextDayAcrossYear` | src/Date.cpp:89-99 | 1 January comes one weekday after the 31 December before it. |
| `Zeller.DayNameExamples` | src/Date.cpp:86-102 | 15/6/2020 is a Monday, and so is 1/1/2024. 4/7/1776 is a Thursday and 1/1/2000 a Saturday. |
| `Decimal.NatToString` | src/Date.cpp:111 | `std::to_string` of a non-negative int is a non-empty run of digits with no leading zero. |
| `Decimal.IntToString` | src/Date.cpp:111 | `std::to_string` of a non-negative int is a numeral; of a negative int, a minus sign followed by a numeral. `Decimal.IntToStringValue` gives the digits' value. |
| `Decimal.IntToStringValue` | src/Date.cpp:111 | The digits `std::to_string` writes have the value n, or -n after the minus sign when n is negative. |
| `Decimal.NatToStringRoundTrip` | src/Date.cpp:111 | Reading the digits of `std::to_string(n)` back gives n. |
| `Decimal.NatToStringInjective` | src/Date.cpp:111 | Different numbers get different numerals. |
| `Decimal.NumeralExamples` | src/Date.cpp:111 | 15, 6 and 2020 print as "15", "6" and "2020"; a negative number prints with a leading minus sign. |
| `Formatting.FormattedDate` | src/Date.cpp:104-132 | Any code other than 1, 2 and 3 gives "Invalid date format chosen"; formats 1 and 2 start with the day's numeral. The lemmas below give each format's full shape. |
| `Formatting.SlashFormatFields` | src/Date.cpp:109-113 | Format 1 splits at its two slashes into the numerals of day, month and year. |
| `Formatting.SlashFormatRoundTrip` | src/Date.cpp:109-113 | Reading format 1 back gives the same date for every well-formed date. |
| `Formatting.SlashFormatInjective` | src/Date.cpp:109-113 | Two different well-formed dates never print alike in format 1. |
| `Formatting.NameFormatFields` | src/Date.cpp:114-118 | Format 2 splits at its slashes into the day's numeral, the month's name (index month - 1) and the year's numeral. |
| `Formatting.WeekdayFormatShape` | src/Date.cpp:119-124 | Format 3 is the weekday name, a space, then format 1 with its slashes turned into dots. |
| `Formatting.FallbackOnlyForUnknownCodes` | src/Date.cpp:104-132 | "Invalid date format chosen" comes out exactly for the codes other than 1, 2 and 3. |
| `Formatting.FormatExamples` | src/Date.cpp:104-132 | 15/6/2020 prints as "15/6/2020", "15/June/2020" and "Monday 15.6.2020"; code 0 prints the fallback text. |
| `Ordering.Eq` | src/Date.cpp:149-152 | `==` holds exactly when the triples are equal. |
| `Ordering.Ne` | src/Date.cpp:154-157 | `!=` holds exactly when the triples differ. |
| `Ordering.Lt` | src/Date.cpp:164-168 | Every date is `<` itself; between different years `<` follows the year. `Ordering.LtIsRankLe` gives the full order. |
| `Ordering.Le` | src/Date.cpp:170-173 | `<=` answers exactly as `<`. |
| `Ordering.Gt` | src/Date.cpp:159-162 | `>` holds exactly when `<` does not. |
| `Ordering.Ge` | src/Date.cpp:175-178 | `>=` answers exactly as `>`, and no date is `>=` itself. |
| `Ordering.LtIsRankLe` | src/Date.cpp:159-168 | On triples with day 0..31 and month 0..12, `<` holds exactly when the first rank is <= the second. `>` holds exactly when it is greater. |
| `Ordering.LtReflexive` | src/Date.cpp:159-178 | Every date is `<` and `<=` itself, and is neither `>` nor `>=` itself. |
| `Ordering.LtIsTotalOrder` | src/Date.cpp:164-168 | `<` is reflexive, antisymmetric, transitive and total. |
| `Ordering.Trichotomy` | src/Date.cpp:149-162 | For any two dates, exactly one of `a == b`, `a > b` and `b > a` holds. |
| `Ordering.ComparisonExamples` | src/Date.cpp:149-178 | All six operators give the expected answers for 15/6/2020 against 16/6/2020. |
| `Mutation.Constructed` | src/Date.cpp:4-14 | A construction that succeeds holds the given triple, which is valid; otherwise the error is "Incorrect date". |
| `Mutation.WithDay` | src/Date.cpp:48-56 | A successful `set_day` gives a valid triple with the new day and the old month and year; otherwise the error is "Incorrect day". |
| `Mutation.WithMonth` | src/Date.cpp:63-71 | A successful `set_month` gives a valid triple with the new month and the old day and year; otherwise the error is "Incorrect month". |
| `Mutation.WithYear` | src/Date.cpp:78-84 | `set_year` succeeds exactly for a year >= 0 and then changes only the year; otherwise the error is "Incorrect year". |
| `Mutation.TokensAccepted` | src/Date.cpp:192 | The test never rejects a triple `check_date` accepts when both delimiters are slashes, and what it accepts lies in the setters' domain (day >= 1, month >= 1, year >= 0). |
| `Mutation.Extracted` | src/Date.cpp:186-203 | With the failbit set or `set_day` throwing, the triple is unchanged. A normal end holds the read triple. "Incorrect year" and "Incorrect date" never come out. |
| `Mutation.ConstructedIffValid` | src/Date.cpp:4-14 | Construction succeeds exactly when `check_date` holds, and then holds the given triple. Default arguments give 1/1/2024; 32/1/2024 fails with "Incorrect date". |
| `Mutation.DayAndMonthSettersValidate` | src/Date.cpp:48-71 | `set_day` and `set_month` succeed exactly when the whole new triple passes `check_date`. The result is then valid, and only the set field has changed. |
| `Mutation.YearSetterChecksSign` | src/Date.cpp:78-84 | `set_year` succeeds exactly for a year >= 0, whatever the day and month, and changes only the year. |
| `Mutation.YearSetterBreaksValidity` | src/Date.cpp:78-84 | From the valid 29/2/2024, `set_year(2023)` succeeds and leaves the invalid 29/2/2023. |
| `Mutation.YearSetterLosesOnlyLeapDay` | src/Date.cpp:78-84 | If `set_year` turns a valid date invalid, the date was 29 February and the new year is not a leap year. |
| `Mutation.SettersKeepWellFormed` | src/Date.cpp:48-84 | Each of the three setters keeps the object invariant `WellFormed`. |
| `Mutation.ExtractionOutcomes` | src/Date.cpp:186-203 | `operator>>` has four possible outcomes. Rejected tokens set the failbit and change nothing. If `set_day` throws, nothing has changed. If `set_month` throws, the new day is already written. Otherwise all three new fields are stored. `set_year` never throws here. |
| `Mutation.ExtractionKeepsWellFormed` | src/Date.cpp:186-203 | `operator>>` keeps the object invariant `WellFormed`. |
| `Mutation.ExtractionNotAtomic` | src/Date.cpp:194-196 | Reading 30/2/2024 into 31/1/2024 throws "Incorrect month" and leaves 30/1/2024, which is neither the old date nor the new one. |
| `Mutation.ExtractionDependsOnOldDate` | src/Date.cpp:194-196 | The valid 31/1/2024 reads into 1/1/2024 but not into 1/2/2024, where `set_day(31)` is checked against February. |
| `Mutation.ExtractionCanStoreInvalidDate` | src/Date.cpp:186-203 | Reading 29/2/2023 into 1/1/2024 ends normally and stores the invalid 29/2/2023. |
| `Mutation.SetterExamples` | src/Date.cpp:48-84 | Setting 15, then 6, then 2020 on the default date gives 15/6/2020. Setting day 32, month 13 or year -1 fails. 16/6/2020 reads into 15/6/2020; the same with `-` delimiters sets the failbit. |
| `Dates.Date.constructor` | src/Date.cpp:4-14 | When `check_date` holds, the new object holds the given triple and satisfies the invariant. |
| `Dates.Date.Default` | src/Date.hpp:39 | The default constructor holds 1/1/2024, which is valid. |
| `Dates.Date.Create` | src/Date.cpp:4-14 | An object is made exactly when `check_date` holds. It holds the triple; otherwise the result is null and nothing is made. |
| `Dates.Date.Copy` | src/Date.cpp:16-17 | Copying or moving gives a fresh object with the same triple. |
| `Dates.Date.Assign` | src/Date.cpp:19-41 | After assignment this object holds the other's triple. Assigning an object to itself changes nothing. |
| `Dates.Date.SetDay` | src/Date.cpp:48-56 | The new day is written exactly when `check_date(newDay, month, year)` holds; otherwise the fields are unchanged. The invariant is kept. |
| `Dates.Date.SetMonth` | src/Date.cpp:63-71 | The new month is written exactly when `check_date(day, newMonth, year)` holds; otherwise the fields are unchanged. The invariant is kept. |
| `Dates.Date.SetYear` | src/Date.cpp:78-84 | The new year is written exactly when it is >= 0, with no other check; otherwise the fields are unchanged. The invariant is kept. |
| `Dates.Date.Extract` | src/Date.cpp:186-203 | `operator>>` on extracted tokens leaves exactly the triple and status that `Mutation.Extracted` gives for the old triple. The invariant is kept. |

## Left out

- `Zeller.DayName`: names the weekday by the corrected floor-division index. On the valid dates of January and February of year 0 the code as written returns another name; on 1/1/0 it returns "Sunday" where the model gives "Saturday" (see "## Findings"). `Zeller.DayNameMatchesSource` proves the two agree on every other well-formed date.
- `Formatting.FormattedDate`: format 3 inherits that difference. On 1/1/0 the code prints "Sunday 1.1.0" and the model "Saturday 1.1.0".
- The one- and two-argument forms of the constructor, `Date(d)` and `Date(d, m)`, take the remaining default arguments (src/Date.hpp:39); they are `Dates.Date.Create(d, 1, 2024)` and `Dates.Date.Create(d, m, 2024)` and have no member of their own.
- Stream mechanics of `operator>>`: integer extraction, whitespace skipping and reading the failbit. `Dates.Date.Extract` takes the tokens already extracted (day, delimiter, month, delimiter, year) and returns the failbit as a status.
- `operator<<` writes format 1 to a stream (src/Date.cpp:180-184). Its text is `FormattedDate(v, 1)`; the stream is not modelled.
- Exceptions as control flow: a thrown `std::invalid_argument` is a `Failure`, a `Thrown` status or a null `Create` result.
- C++ `int` overflow: all fields are unbounded integers.
- The getters: they are the public fields `day`, `month` and `year`.
- `Dates.Date.Create`: a C++ constructor that throws makes no object. In Dafny, a constructor always makes one, so the throwing constructor is a static method that returns null on failure.
- The unit-test harness and `main` of tests/test_Date.cpp. Its cases are stated as the `...Examples` lemmas.

## Findings

| source | as written | input that shows it | evidently intended | confidence | as-written member | corrected member |
|---|---|---|---|---|---|---|
| src/Date.cpp:89-96 | For January and February, `year--` turns year 0 into -1. C++ `%` and `/` then truncate, giving k = -1 and j = 0, so every date of January and February of year 0 is named one weekday late. | 1/1/0 is named Sunday, but the proleptic Gregorian 1 January of year 0 is a Saturday. 29/2/0 and 1/3/0 both come out Wednesday. | Floor division (k = 99, j = -1). That gives Saturday for 1/1/0, Tuesday for 29/2/0 and Wednesday for 1/3/0. | high; not executed | `Zeller.AsWrittenYearZeroShift` | `Zeller.NextDayAcrossFebruary` |

The rest of the model names weekdays with the corrected `Zeller.DayIndex`.
`Zeller.AsWrittenAgrees` proves that it equals the code as written
(`Zeller.DayIndexAsWritten`) on every well-formed date outside January and
February of year 0. `Zeller.AsWrittenYearZeroShift` proves the code as written one weekday
late on every date of January and February of year 0.
`Zeller.AsWrittenNewYearZero` exhibits the 1/1/0 case, and
`Zeller.AsWrittenLeapDayZero` the two consecutive dates 29/2/0 and 1/3/0
that come out the same weekday.
