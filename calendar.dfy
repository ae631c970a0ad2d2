/** The parts of Python's `datetime` module that the parser calls. */
module Calendar {
  import opened Wrappers

  datatype Date = Date(year: int, month: int, day: int)
  datatype Time = Time(hour: int, minute: int)
  datatype DateTime = DateTime(date: Date, time: Time)

  /** The exceptions the constructors raise. */
  datatype DateTimeError =
    | WrongArity       // TypeError: `date` called with other than three positional arguments
    | DateOutOfRange   // ValueError from `date`
    | TimeOutOfRange   // ValueError from `time`
    | DateIsNone       // TypeError: `datetime.combine` given None for the date
    | TimeIsNone       // TypeError: `datetime.combine` given None for the time

  const MinYear: int := 1
  const MaxYear: int := 9999

  predicate IsLeapYear(year: int)
  {
    year % 4 == 0 && (year % 100 != 0 || year % 400 == 0)
  }

  function DaysInMonth(year: int, month: int): (n: int)
    requires 1 <= month <= 12
    ensures 28 <= n <= 31
    ensures n == 29 <==> month == 2 && IsLeapYear(year)
  {
    if month == 2 then (if IsLeapYear(year) then 29 else 28)
    else if month == 4 || month == 6 || month == 9 || month == 11 then 30
    else 31
  }

  predicate IsValidDate(year: int, month: int, day: int)
  {
    MinYear <= year <= MaxYear && 1 <= month <= 12 && 1 <= day <= DaysInMonth(year, month)
  }

  /** `date(*args)`: exactly three positional arguments, year, month and day, each in range. */
  function MakeDate(args: seq<int>): (r: Result<Date, DateTimeError>)
    ensures |args| != 3 ==> r == Failure(WrongArity)
    ensures |args| == 3 ==> (r.Success? <==> IsValidDate(args[0], args[1], args[2]))
    ensures r.Success? ==> r.value == Date(args[0], args[1], args[2])
    ensures r.Failure? ==> r.error in {WrongArity, DateOutOfRange}
  {
    if |args| != 3 then Failure(WrongArity)
    else if IsValidDate(args[0], args[1], args[2]) then Success(Date(args[0], args[1], args[2]))
    else Failure(DateOutOfRange)
  }

  /** `time(hour, minute)`. */
  function MakeTime(hour: int, minute: int): (r: Result<Time, DateTimeError>)
    ensures r.Success? <==> 0 <= hour < 24 && 0 <= minute < 60
    ensures r.Success? ==> r.value == Time(hour, minute)
    ensures r.Failure? ==> r.error == TimeOutOfRange
  {
    if 0 <= hour < 24 && 0 <= minute < 60 then Success(Time(hour, minute)) else Failure(TimeOutOfRange)
  }

  /** `datetime.combine(date, time)`; the date argument is checked first. */
  function Combine(date: Option<Date>, time: Option<Time>): (r: Result<DateTime, DateTimeError>)
    ensures r.Success? <==> date.Some? && time.Some?
    ensures r.Success? ==> r.value.date == date.value && r.value.time == time.value
    ensures date.None? ==> r == Failure(DateIsNone)
    ensures date.Some? && time.None? ==> r == Failure(TimeIsNone)
  {
    match date
    case None => Failure(DateIsNone)
    case Some(d) =>
      match time
      case None => Failure(TimeIsNone)
      case Some(t) => Success(DateTime(d, t))
  }
}
