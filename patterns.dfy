/**
 * The two regular expressions of the schedule page parser and Python's
 * `re.search` over them: the leftmost start position wins, and at that
 * position the optional parts are tried taken-first, as the backtracking
 * engine does.
 *
 *   date: [0-3]?[0-9]\.[0-1]?[0-9](\.201[0-9])?
 *   time: [0-2]?[0-9]:[0-5][0-9]
 */
module Patterns {
  import opened Wrappers
  import opened Text

  datatype Pattern = DatePattern | TimePattern

  /** The matched range [start, end) of the searched string (`match.span()`). */
  datatype Span = Span(start: nat, end: nat)

  predicate InRange(c: char, lo: char, hi: char)
  {
    lo <= c <= hi
  }

  // ---------------------------------------------------------------------
  // The languages of the two patterns, as predicates on a whole text.
  // ---------------------------------------------------------------------

  /** `[0-1]?[0-9]` */
  predicate IsMonthText(u: string)
  {
    || (|u| == 1 && IsDigit(u[0]))
    || (|u| == 2 && InRange(u[0], '0', '1') && IsDigit(u[1]))
  }

  /** `[0-3]?[0-9]\.[0-1]?[0-9]` */
  predicate IsDayMonthText(t: string)
  {
    || (|t| >= 2 && IsDigit(t[0]) && t[1] == '.' && IsMonthText(t[2..]))
    || (|t| >= 3 && InRange(t[0], '0', '3') && IsDigit(t[1]) && t[2] == '.' && IsMonthText(t[3..]))
  }

  /** `\.201[0-9]` */
  predicate IsYearText(u: string)
  {
    |u| == 5 && u[0] == '.' && u[1] == '2' && u[2] == '0' && u[3] == '1' && IsDigit(u[4])
  }

  predicate IsDateText(t: string)
  {
    || IsDayMonthText(t)
    || (|t| >= 5 && IsDayMonthText(t[..|t| - 5]) && IsYearText(t[|t| - 5..]))
  }

  predicate IsTimeText(t: string)
  {
    || (|t| == 4 && IsDigit(t[0]) && t[1] == ':' && InRange(t[2], '0', '5') && IsDigit(t[3]))
    || (|t| == 5 && InRange(t[0], '0', '2') && IsDigit(t[1]) && t[2] == ':'
        && InRange(t[3], '0', '5') && IsDigit(t[4]))
  }

  predicate Matches(p: Pattern, t: string)
  {
    match p
    case DatePattern => IsDateText(t)
    case TimePattern => IsTimeText(t)
  }

  // ---------------------------------------------------------------------
  // The backtracking matcher.
  // ---------------------------------------------------------------------

  /**
   * One path of the engine through `[0-3]?[0-9]\.[0-1]?[0-9]` from i:
   * takeDay and takeMonth say whether the optional leading digit of the
   * day and of the month was consumed. Returns where the path ends.
   */
  function DayMonthPath(s: string, i: nat, takeDay: bool, takeMonth: bool): Option<nat>
  {
    var d := if takeDay then 1 else 0;
    var m := if takeMonth then 1 else 0;
    var e := i + d + m + 3;
    if && e <= |s|
       && (takeDay ==> InRange(s[i], '0', '3'))
       && IsDigit(s[i + d]) && s[i + d + 1] == '.'
       && (takeMonth ==> InRange(s[i + d + 2], '0', '1'))
       && IsDigit(s[i + d + 2 + m])
    then Some(e) else None
  }

  /** The first path that gets through, in the engine's order: each `?` first takes, then skips. */
  function DayMonthAt(s: string, i: nat): (r: Option<nat>)
    requires i <= |s|
    ensures r.Some? ==> i < r.value <= |s| && IsDayMonthText(s[i..r.value])
    ensures r.Some? ==> forall j :: r.value < j <= |s| ==> !IsDayMonthText(s[i..j])
    ensures r.None? ==> forall j :: i <= j <= |s| ==> !IsDayMonthText(s[i..j])
  {
    var tt := DayMonthPath(s, i, true, true);
    var tf := DayMonthPath(s, i, true, false);
    var ft := DayMonthPath(s, i, false, true);
    if tt.Some? then tt else if tf.Some? then tf else if ft.Some? then ft
    else DayMonthPath(s, i, false, false)
  }

  /** `[0-2]?[0-9]:[0-5][0-9]` along one path: with or without the leading hour digit. */
  function TimePath(s: string, i: nat, takeHour: bool): Option<nat>
  {
    var h := if takeHour then 1 else 0;
    var e := i + h + 4;
    if && e <= |s|
       && (takeHour ==> InRange(s[i], '0', '2'))
       && IsDigit(s[i + h]) && s[i + h + 1] == ':'
       && InRange(s[i + h + 2], '0', '5') && IsDigit(s[i + h + 3])
    then Some(e) else None
  }

  /** The date pattern at i: the day and month, then the optional year taken when it is there. */
  function DateMatchAt(s: string, i: nat): Option<nat>
    requires i <= |s|
  {
    match DayMonthAt(s, i)
    case None => None
    case Some(e) => if e + 5 <= |s| && IsYearText(s[e..e + 5]) then Some(e + 5) else Some(e)
  }

  /** After its separator, a day and month text holds only digits. */
  lemma DayMonthDigitsAfterDot(t: string, k: nat)
    requires IsDayMonthText(t) && 3 <= k < |t|
    ensures IsDigit(t[k])
  {
  }

  /** A text of the date pattern, read off the searched string. */
  lemma DateTextAt(s: string, i: nat, j: nat)
    requires i <= j <= |s|
    ensures IsDateText(s[i..j]) <==>
      || IsDayMonthText(s[i..j])
      || (j - i >= 5 && IsDayMonthText(s[i..j - 5]) && IsYearText(s[j - 5..j]))
  {
    if j - i >= 5 {
      assert s[i..j][..j - i - 5] == s[i..j - 5];
      assert s[i..j][j - i - 5..] == s[j - 5..j];
    }
  }

  lemma DateMatchAtIsLongest(s: string, i: nat)
    requires i <= |s|
    ensures DateMatchAt(s, i).Some? ==>
      var e := DateMatchAt(s, i).value;
      i < e <= |s| && IsDateText(s[i..e])
    ensures DateMatchAt(s, i).Some? ==>
      forall j :: DateMatchAt(s, i).value < j <= |s| ==> !IsDateText(s[i..j])
    ensures DateMatchAt(s, i).None? ==> forall j :: i <= j <= |s| ==> !IsDateText(s[i..j])
  {
    match DayMonthAt(s, i)
    case None =>
      forall j | i <= j <= |s|
        ensures !IsDateText(s[i..j])
      {
        DateTextAt(s, i, j);
      }
    case Some(e) =>
      var r := DateMatchAt(s, i).value;
      DateTextAt(s, i, r);
      forall j | r < j <= |s|
        ensures !IsDateText(s[i..j])
      {
        DateTextAt(s, i, j);
        if j - i >= 5 && j - 5 < e && IsDayMonthText(s[i..j - 5]) {
          DayMonthDigitsAfterDot(s[i..e], j - 5 - i);
          assert s[i..e][j - 5 - i] == s[j - 5];
        }
      }
  }

  function TimeMatchAt(s: string, i: nat): (r: Option<nat>)
    requires i <= |s|
    ensures r.Some? ==> i < r.value <= |s| && IsTimeText(s[i..r.value])
    ensures r.Some? ==> forall j :: r.value < j <= |s| ==> !IsTimeText(s[i..j])
    ensures r.None? ==> forall j :: i <= j <= |s| ==> !IsTimeText(s[i..j])
  {
    var long := TimePath(s, i, true);
    if long.Some? then long else TimePath(s, i, false)
  }

  /**
   * Where a match of the pattern starting at i ends, if there is one. The
   * engine's first successful path always gives the longest text of the
   * pattern's language that starts at i.
   */
  function MatchAt(p: Pattern, s: string, i: nat): (r: Option<nat>)
    requires i <= |s|
    ensures r.Some? ==> i < r.value <= |s| && Matches(p, s[i..r.value])
    ensures r.Some? ==> forall j :: r.value < j <= |s| ==> !Matches(p, s[i..j])
    ensures r.None? ==> forall j :: i <= j <= |s| ==> !Matches(p, s[i..j])
  {
    match p
    case DatePattern => DateMatchAtIsLongest(s, i); DateMatchAt(s, i)
    case TimePattern => TimeMatchAt(s, i)
  }

  /** `re.search` from position i on: the leftmost start, and the longest match there. */
  function SearchFrom(p: Pattern, s: string, i: nat): (r: Option<Span>)
    requires i <= |s|
    decreases |s| - i
    ensures r.Some? ==> i <= r.value.start < r.value.end <= |s|
    ensures r.Some? ==> Matches(p, s[r.value.start..r.value.end])
    ensures r.Some? ==> forall j :: r.value.end < j <= |s| ==> !Matches(p, s[r.value.start..j])
    ensures r.Some? ==> forall k, j :: i <= k < r.value.start && k <= j <= |s| ==> !Matches(p, s[k..j])
    ensures r.None? ==> forall k, j :: i <= k <= j <= |s| ==> !Matches(p, s[k..j])
  {
    match MatchAt(p, s, i)
    case Some(e) => Some(Span(i, e))
    case None => if i == |s| then None else SearchFrom(p, s, i + 1)
  }

  /** `re.search` over the whole text. */
  function Search(p: Pattern, s: string): (r: Option<Span>)
    ensures r.Some? ==> r.value.start < r.value.end <= |s| && Matches(p, s[r.value.start..r.value.end])
    ensures r.Some? ==> forall j :: r.value.end < j <= |s| ==> !Matches(p, s[r.value.start..j])
    ensures r.Some? ==> forall k, j :: 0 <= k < r.value.start && k <= j <= |s| ==> !Matches(p, s[k..j])
    ensures r.None? ==> forall k, j :: 0 <= k <= j <= |s| ==> !Matches(p, s[k..j])
  {
    SearchFrom(p, s, 0)
  }
}
