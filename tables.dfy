/** The constant tables the Date class carries: month lengths and names,
    weekday names, and the arguments of the default constructor. */
module Tables {

  /** Days in each month, January first. February holds its common-year
      length; the extra leap day is granted by the validity check. */
  const MonthLengths: seq<int> := [31, 28, 31, 30, 31, 30, 31, 31, 30, 31, 30, 31]

  /** Month names, indexed by month number minus one. */
  const MonthNames: seq<string> := [
    "January", "February", "March", "April", "May", "June",
    "July", "August", "September", "October", "November", "December"
  ]

  /** Weekday names in the order Zeller's congruence numbers them:
      index 0 is Saturday. */
  const DayNames: seq<string> := [
    "Saturday", "Sunday", "Monday", "Tuesday", "Wednesday", "Thursday", "Friday"
  ]

  /** Arguments of the default constructor. */
  const DefaultDay: int := 1
  const DefaultMonth: int := 1
  const DefaultYear: int := 2024

  function Sum(s: seq<int>): int
  {
    if s == [] then 0 else s[0] + Sum(s[1..])
  }

  /** Twelve months, each 28 to 31 days long, only February at 28,
      adding up to a common year of 365 days. */
  lemma MonthTableShape()
    ensures |MonthLengths| == 12 && |MonthNames| == 12
    ensures forall i :: 0 <= i < 12 ==> 28 <= MonthLengths[i] <= 31
    ensures forall i :: 0 <= i < 12 ==> (MonthLengths[i] == 28 <==> i == 1)
    ensures Sum(MonthLengths) == 365
  {
  }

  /** Month names are looked up at month - 1. */
  lemma MonthNameIndexing()
    ensures MonthNames[0] == "January" && MonthNames[1] == "February"
    ensures MonthNames[5] == "June" && MonthNames[11] == "December"
  {
  }

  /** Seven weekday names, 0 -> Saturday, 1 -> Sunday, 2 -> Monday, ..., 6 -> Friday. */
  lemma DayNameIndexing()
    ensures |DayNames| == 7
    ensures DayNames[0] == "Saturday" && DayNames[1] == "Sunday" && DayNames[2] == "Monday"
    ensures DayNames[3] == "Tuesday" && DayNames[4] == "Wednesday"
    ensures DayNames[5] == "Thursday" && DayNames[6] == "Friday"
  {
  }
}
