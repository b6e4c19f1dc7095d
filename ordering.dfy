/** The six comparison operators of the Date class, over the field triples
    of the two operands. `<` compares the day with `<=`, so it is the
    lexicographic less-or-equal of (year, month, day); the other operators
    are built from it and from `==`. */
module Ordering {
  import opened Tables
  import opened Validity

  /** `operator==`: the three fields agree. */
  predicate Eq(a: DateValue, b: DateValue)
    ensures Eq(a, b) <==> a == b
  {
    a.day == b.day && a.month == b.month && a.year == b.year
  }

  /** `operator!=`. */
  predicate Ne(a: DateValue, b: DateValue)
    ensures Ne(a, b) <==> a != b
  {
    !Eq(a, b)
  }

  /** `operator<`: earlier year, or same year and earlier month, or same
      year and month and a day that is not later. */
  predicate Lt(a: DateValue, b: DateValue)
    ensures a == b ==> Lt(a, b)
    ensures a.year != b.year ==> (Lt(a, b) <==> a.year < b.year)
  {
    (a.year < b.year || (a.year == b.year && a.month < b.month)) ||
    (a.year == b.year && a.month == b.month && a.day <= b.day)
  }

  /** `operator<=`: equal or `<`. */
  predicate Le(a: DateValue, b: DateValue)
    ensures Le(a, b) <==> Lt(a, b)
  {
    Eq(a, b) || Lt(a, b)
  }

  /** `operator>`: not `<=`. */
  predicate Gt(a: DateValue, b: DateValue)
    ensures Gt(a, b) <==> !Lt(a, b)
  {
    !Le(a, b)
  }

  /** `operator>=`: not `<`, so it answers exactly as `>` does and no date
      is `>=` itself. */
  predicate Ge(a: DateValue, b: DateValue)
    ensures Ge(a, b) <==> Gt(a, b)
    ensures a == b ==> !Ge(a, b)
  {
    !Lt(a, b)
  }

  /** Reference: a date's position on a single number line, with room for
      31 days in every month and 12 months in every year. */
  function Rank(v: DateValue): int
  {
    (v.year * 13 + v.month) * 32 + v.day
  }

  /** Days 0..31 and months 0..12: what every Date object has. */
  predicate InTableRange(v: DateValue)
  {
    0 <= v.day <= 31 && 0 <= v.month <= 12
  }

  lemma WellFormedInTableRange(v: DateValue)
    requires WellFormed(v)
    ensures InTableRange(v)
  {
    assert MonthLengths[v.month - 1] <= 31;
  }

  /** `<` orders dates as their ranks do with `<=`, and `>` as with `>`. */
  lemma LtIsRankLe(a: DateValue, b: DateValue)
    requires InTableRange(a) && InTableRange(b)
    ensures Lt(a, b) <==> Rank(a) <= Rank(b)
    ensures Gt(a, b) <==> Rank(a) > Rank(b)
  {
    var ma, mb := a.year * 13 + a.month, b.year * 13 + b.month;
    assert ma < mb <==> a.year < b.year || (a.year == b.year && a.month < b.month);
    if ma < mb {
      assert Rank(a) < (ma + 1) * 32 <= mb * 32 <= Rank(b);
    } else if ma > mb {
      assert Rank(b) < (mb + 1) * 32 <= ma * 32 <= Rank(a);
    } else {
      assert a.year == b.year && a.month == b.month;
    }
  }

  /** `<` is reflexive: every date is `<` itself. */
  lemma LtReflexive(a: DateValue)
    ensures Lt(a, a) && Le(a, a)
    ensures !Gt(a, a) && !Ge(a, a)
  {
  }

  /** `<` is a total order (reflexive, antisymmetric, transitive, total). */
  lemma LtIsTotalOrder(a: DateValue, b: DateValue, c: DateValue)
    ensures Lt(a, a)
    ensures Lt(a, b) && Lt(b, a) ==> a == b
    ensures Lt(a, b) && Lt(b, c) ==> Lt(a, c)
    ensures Lt(a, b) || Lt(b, a)
  {
  }

  /** Exactly one of `a == b`, `a > b`, `b > a` holds. */
  lemma Trichotomy(a: DateValue, b: DateValue)
    ensures Eq(a, b) || Gt(a, b) || Gt(b, a)
    ensures !(Eq(a, b) && Gt(a, b)) && !(Eq(a, b) && Gt(b, a)) && !(Gt(a, b) && Gt(b, a))
  {
  }

  /** The pair of dates the unit test compares. */
  lemma ComparisonExamples()
    ensures Lt(DateValue(15, 6, 2020), DateValue(16, 6, 2020))
    ensures Gt(DateValue(16, 6, 2020), DateValue(15, 6, 2020))
    ensures Le(DateValue(15, 6, 2020), DateValue(16, 6, 2020))
    ensures Ge(DateValue(16, 6, 2020), DateValue(15, 6, 2020))
    ensures !Eq(DateValue(15, 6, 2020), DateValue(16, 6, 2020))
    ensures Ne(DateValue(15, 6, 2020), DateValue(16, 6, 2020))
  {
  }
}
