/** `get_formatted_date`: three integer-coded output formats and a fallback
    text, together with the reading that undoes format 1. */
module Formatting {
  import opened Tables
  import opened Validity
  import opened Zeller
  import opened Decimal

  datatype Option<T> = None | Some(value: T)

  /** What any format code other than 1, 2 or 3 yields. */
  const InvalidFormatText: string := "Invalid date format chosen"

  /** Format 1 is `D/M/Y`, format 2 `D/<month name>/Y`, format 3
      `<weekday name> D.M.Y`. Format 2 indexes the month-name table, which
      needs the month in range (every Date object keeps it there). */
  function FormattedDate(v: DateValue, format: int): (text: string)
    requires format == 2 ==> 1 <= v.month <= 12
    ensures !(format == 1 || format == 2 || format == 3) ==> text == InvalidFormatText
    ensures format == 1 || format == 2 ==>
            |text| > |IntToString(v.day)| && text[..|IntToString(v.day)|] == IntToString(v.day)
  {
    match format
    case 1 => IntToString(v.day) + "/" + IntToString(v.month) + "/" + IntToString(v.year)
    case 2 => IntToString(v.day) + "/" + MonthNames[v.month - 1] + "/" + IntToString(v.year)
    case 3 =>
      DayName(v.day, v.month, v.year) + " " +
      IntToString(v.day) + "." + IntToString(v.month) + "." + IntToString(v.year)
    case _ => InvalidFormatText
  }

  /** The pieces of `s` between occurrences of `sep`. */
  function Split(s: string, sep: char): (parts: seq<string>)
    ensures |parts| >= 1
    ensures forall i :: 0 <= i < |parts| ==> sep !in parts[i]
    decreases |s|
  {
    if s == [] then [""]
    else
      var rest := Split(s[1..], sep);
      if s[0] == sep then [""] + rest else [[s[0]] + rest[0]] + rest[1..]
  }

  lemma {:induction false} SplitWithout(a: string, sep: char)
    requires sep !in a
    ensures Split(a, sep) == [a]
    decreases |a|
  {
    if a != [] {
      SplitWithout(a[1..], sep);
      assert [a[0]] + a[1..] == a;
    }
  }

  lemma {:induction false} SplitAt(a: string, b: string, sep: char)
    requires sep !in a
    ensures Split(a + [sep] + b, sep) == [a] + Split(b, sep)
    decreases |a|
  {
    var s := a + [sep] + b;
    if a == [] {
      assert s[1..] == b;
    } else {
      assert s[1..] == a[1..] + [sep] + b;
      SplitAt(a[1..], b, sep);
      assert [a[0]] + a[1..] == a;
    }
  }

  /** The inverse of format 1: three numerals separated by two slashes. */
  function ReadBack(s: string): Option<DateValue>
  {
    var parts := Split(s, '/');
    if |parts| == 3 && IsNumeral(parts[0]) && IsNumeral(parts[1]) && IsNumeral(parts[2]) then
      Some(DateValue(NumeralValue(parts[0]), NumeralValue(parts[1]), NumeralValue(parts[2])))
    else
      None
  }

  lemma SplitThree(a: string, b: string, c: string, sep: char)
    requires sep !in a && sep !in b && sep !in c
    ensures Split(a + [sep] + b + [sep] + c, sep) == [a, b, c]
  {
    SplitWithout(c, sep);
    SplitAt(b, c, sep);
    assert a + [sep] + b + [sep] + c == a + [sep] + (b + [sep] + c);
    SplitAt(a, b + [sep] + c, sep);
  }

  /** Format 1 of a well-formed date splits at its two slashes into the
      numerals of day, month and year. */
  lemma SlashFormatFields(v: DateValue)
    requires WellFormed(v)
    ensures Split(FormattedDate(v, 1), '/') ==
            [NatToString(v.day), NatToString(v.month), NatToString(v.year)]
  {
    SplitThree(NatToString(v.day), NatToString(v.month), NatToString(v.year), '/');
  }

  /** Format 1 loses nothing: reading it back gives the date again. */
  lemma SlashFormatRoundTrip(v: DateValue)
    requires WellFormed(v)
    ensures ReadBack(FormattedDate(v, 1)) == Some(v)
  {
    SlashFormatFields(v);
    NatToStringRoundTrip(v.day);
    NatToStringRoundTrip(v.month);
    NatToStringRoundTrip(v.year);
  }

  /** Hence two different dates never print alike in format 1. */
  lemma SlashFormatInjective(a: DateValue, b: DateValue)
    requires WellFormed(a) && WellFormed(b)
    requires FormattedDate(a, 1) == FormattedDate(b, 1)
    ensures a == b
  {
    SlashFormatRoundTrip(a);
    SlashFormatRoundTrip(b);
  }

  /** Format 2 has the fields of format 1, with the month's name from the
      table (January at index 0) in place of its number. */
  lemma NameFormatFields(v: DateValue)
    requires WellFormed(v)
    ensures Split(FormattedDate(v, 2), '/') ==
            [NatToString(v.day), MonthNames[v.month - 1], NatToString(v.year)]
  {
    var name := MonthNames[v.month - 1];
    assert '/' !in name;
    SplitThree(NatToString(v.day), name, NatToString(v.year), '/');
  }

  /** `s` with every `from` character turned into `to`. */
  function Replace(s: string, from: char, to: char): string
  {
    seq(|s|, i requires 0 <= i < |s| => if s[i] == from then to else s[i])
  }

  lemma ReplaceConcat(a: string, b: string, from: char, to: char)
    ensures Replace(a + b, from, to) == Replace(a, from, to) + Replace(b, from, to)
  {
  }

  lemma ReplaceAbsent(a: string, from: char, to: char)
    requires from !in a
    ensures Replace(a, from, to) == a
  {
  }

  lemma NumeralHasNoSlash(s: string)
    requires IsNumeral(s)
    ensures '/' !in s
  {
  }

  /** Format 3 is the weekday name, a space, and format 1 with its slashes
      turned into dots. */
  lemma WeekdayFormatShape(v: DateValue)
    requires WellFormed(v)
    ensures FormattedDate(v, 3) ==
            DayName(v.day, v.month, v.year) + " " + Replace(FormattedDate(v, 1), '/', '.')
  {
    var d, m, y := NatToString(v.day), NatToString(v.month), NatToString(v.year);
    NumeralHasNoSlash(d);
    NumeralHasNoSlash(m);
    NumeralHasNoSlash(y);
    ReplaceAbsent(d, '/', '.');
    ReplaceAbsent(m, '/', '.');
    ReplaceAbsent(y, '/', '.');
    assert Replace("/", '/', '.') == ".";
    ReplaceConcat(d + "/" + m + "/", y, '/', '.');
    ReplaceConcat(d + "/" + m, "/", '/', '.');
    ReplaceConcat(d + "/", m, '/', '.');
    ReplaceConcat(d, "/", '/', '.');
  }

  /** The fallback text comes out exactly for the codes other than 1, 2, 3. */
  lemma FallbackOnlyForUnknownCodes(v: DateValue, format: int)
    requires WellFormed(v)
    ensures FormattedDate(v, format) == InvalidFormatText <==> !(format == 1 || format == 2 || format == 3)
  {
    assert InvalidFormatText[0] == 'I';
    if format == 3 {
      var name := DayName(v.day, v.month, v.year);
      assert name[0] != 'I';
      assert FormattedDate(v, 3)[0] == name[0];
    } else if format == 1 || format == 2 {
      assert FormattedDate(v, format)[0] == NatToString(v.day)[0];
    }
  }

  lemma FormatExamples()
    ensures FormattedDate(DateValue(15, 6, 2020), 1) == "15/6/2020"
    ensures FormattedDate(DateValue(15, 6, 2020), 2) == "15/June/2020"
    ensures FormattedDate(DateValue(15, 6, 2020), 3) == "Monday 15.6.2020"
    ensures FormattedDate(DateValue(15, 6, 2020), 0) == "Invalid date format chosen"
  {
    NumeralExamples();
    DayNameExamples();
    var v := DateValue(15, 6, 2020);
    assert FormattedDate(v, 1) == "15" + "/" + "6" + "/" + "2020";
    assert FormattedDate(v, 2) == "15" + "/" + "June" + "/" + "2020";
    assert FormattedDate(v, 3) == "Monday" + " " + "15" + "." + "6" + "." + "2020";
  }
}
