/** The Date class itself: three integer fields that the constructor, the
    setters, assignment and `operator>>` update in place. Each method is
    tied to the function of the old triple that describes it. */
module Dates {
  import opened Tables
  import opened Validity
  import opened Mutation

  class Date {
    var day: int
    var month: int
    var year: int

    /** The triple the object holds. */
    function Value(): DateValue
      reads this
    {
      DateValue(day, month, year)
    }

    /** The invariant every Date object keeps; it is weaker than validity,
        since `set_year` may leave 29 February in a common year. */
    ghost predicate Valid()
      reads this
    {
      WellFormed(Value())
    }

    /** The constructor when `check_date` accepts its arguments. */
    constructor (d: int, m: int, y: int)
      requires CheckDate(d, m, y)
      ensures Value() == DateValue(d, m, y) && Valid()
    {
      day, month, year := d, m, y;
      WellFormedCharacterisation(DateValue(d, m, y));
    }

    /** The constructor with its default arguments, 1/1/2024. */
    constructor Default()
      ensures Value() == DateValue(DefaultDay, DefaultMonth, DefaultYear)
      ensures IsValid(Value()) && Valid()
    {
      day, month, year := DefaultDay, DefaultMonth, DefaultYear;
    }

    /** The constructor as a whole: an object exactly when `check_date`
        accepts the triple, and otherwise the "Incorrect date" exception
        (null) with no object made. */
    static method Create(d: int, m: int, y: int) returns (date: Date?)
      ensures date != null <==> CheckDate(d, m, y)
      ensures date != null ==> fresh(date) && date.Value() == DateValue(d, m, y) && date.Valid()
      ensures Constructed(d, m, y) == if date == null then Failure(IncorrectDate) else Success(date.Value())
    {
      if CheckDate(d, m, y) {
        date := new Date(d, m, y);
      } else {
        date := null;
      }
    }

    /** The copy and move constructors: a new object with the same triple. */
    method Copy() returns (other: Date)
      ensures fresh(other) && other.Value() == Value()
    {
      other := new Date.Default();
      other.day, other.month, other.year := day, month, year;
    }

    /** Copy and move assignment; assigning an object to itself changes nothing. */
    method Assign(other: Date)
      modifies this
      ensures Value() == old(other.Value())
      ensures other == this ==> Value() == old(Value())
    {
      if other != this {
        day, month, year := other.day, other.month, other.year;
      }
    }

    /** `set_day`: commits the new day only if the whole new triple is valid. */
    method SetDay(newDay: int) returns (ok: bool)
      modifies this
      ensures ok <==> CheckDate(newDay, old(month), old(year))
      ensures Value() == if ok then old(Value()).(day := newDay) else old(Value())
      ensures WithDay(old(Value()), newDay) == if ok then Success(Value()) else Failure(IncorrectDay)
      ensures old(Valid()) ==> Valid()
    {
      ok := CheckDate(newDay, month, year);
      if ok {
        day := newDay;
        WellFormedCharacterisation(Value());
      }
    }

    /** `set_month`: commits the new month only if the whole new triple is valid. */
    method SetMonth(newMonth: int) returns (ok: bool)
      modifies this
      ensures ok <==> CheckDate(old(day), newMonth, old(year))
      ensures Value() == if ok then old(Value()).(month := newMonth) else old(Value())
      ensures WithMonth(old(Value()), newMonth) == if ok then Success(Value()) else Failure(IncorrectMonth)
      ensures old(Valid()) ==> Valid()
    {
      ok := CheckDate(day, newMonth, year);
      if ok {
        month := newMonth;
        WellFormedCharacterisation(Value());
      }
    }

    /** `set_year`: commits any year >= 0 without re-checking day and month. */
    method SetYear(newYear: int) returns (ok: bool)
      modifies this
      ensures ok <==> newYear >= 0
      ensures Value() == if ok then old(Value()).(year := newYear) else old(Value())
      ensures WithYear(old(Value()), newYear) == if ok then Success(Value()) else Failure(IncorrectYear)
      ensures old(Valid()) ==> Valid()
    {
      ok := newYear >= 0;
      if ok {
        year := newYear;
      }
    }

    /** `operator>>` on the extracted tokens: the three setters in turn, the
        first one that throws ending the operation. */
    method Extract(d: int, delim1: char, m: int, delim2: char, y: int) returns (status: ReadStatus)
      modifies this
      ensures Extracted(old(Value()), d, delim1, m, delim2, y) == ReadResult(Value(), status)
      ensures old(Valid()) ==> Valid()
    {
      if TokensAccepted(d, delim1, m, delim2, y) {
        var ok := SetDay(d);
        if !ok {
          return Thrown(IncorrectDay);
        }
        ok := SetMonth(m);
        if !ok {
          return Thrown(IncorrectMonth);
        }
        ok := SetYear(y);
        status := if ok then Good else Thrown(IncorrectYear);
      } else {
        status := FailBit;
      }
    }
  }
}
