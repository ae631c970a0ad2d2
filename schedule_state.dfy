/**
 * The schedule page parser as a state machine over tokenizer events: the
 * state is the parser's fields, and each callback is a transition from the
 * old fields to the new ones. The class in module SchedulePage runs these
 * transitions in place; this module gives them as values so that runs over
 * whole event sequences can be reasoned about.
 */
module ScheduleState {
  import opened Wrappers
  import opened Text
  import opened Patterns
  import opened Calendar
  import opened Markup

  /**
   * The class of the content region that the script configures at module
   * level. The data callback tests this global, not the parser's own style,
   * so a parser without a style never collects content.
   */
  const ModuleContentDivStyle: string := "col-sm-8"

  /** The lower-cased phrase whose data chunk opens the master paragraph. */
  const MasterTrigger: string := "расписание магистров"

  /** The phrase is already lower case, so lower-casing the data cannot hide it. */
  lemma TriggerIsLowerCase()
    ensures Lower(MasterTrigger) == MasterTrigger
  {
    forall i | 0 <= i < |MasterTrigger|
      ensures Lower(MasterTrigger)[i] == MasterTrigger[i]
    {
      assert MasterTrigger[i] == ' ' || '\U{0430}' <= MasterTrigger[i] <= '\U{044F}';
    }
  }

  /** A chunk holding the phrase as written still holds it once lower-cased. */
  lemma LoweredDataKeepsTrigger(data: string)
    ensures Contains(data, MasterTrigger) ==> Contains(Lower(data), MasterTrigger)
  {
    if Contains(data, MasterTrigger) {
      var i :| 0 <= i <= |data| && OccursAt(data, MasterTrigger, i);
      var n := |MasterTrigger|;
      TriggerIsLowerCase();
      assert Lower(data)[i..i + n] == Lower(data[i..i + n]);
      assert OccursAt(Lower(data), MasterTrigger, i);
    }
  }

  /**
   * The parser's fields. `style` is "" when no style was given (None and
   * "" are both falsy in Python).
   */
  datatype State = State(
    style: string,
    inContentDiv: bool,
    divLevel: int,
    inMasterP: bool,
    content: string,
    htmlContent: string,
    link: Option<string>,
    date: Option<Date>,
    time: Option<Time>)

  /** The fields after a callback, and the exception it raised, if any. */
  datatype StepResult = StepResult(state: State, error: Option<DateTimeError>)

  /** The fields the constructor sets. */
  function Initial(style: string): State
  {
    State(style, false, 0, false, "", "", None, None, None)
  }

  /** Python truthiness of the link field: None and "" are false. */
  predicate Truthy(v: Option<string>)
  {
    v.Some? && v.value != ""
  }

  predicate IsClassAttr(a: Attr, style: string)
  {
    a.name == "class" && a.value == Some(style)
  }

  /** Some attribute is `class` with exactly the given value. */
  predicate HasClass(attrs: seq<Attr>, style: string)
  {
    exists i :: 0 <= i < |attrs| && IsClassAttr(attrs[i], style)
  }

  /**
   * The link after scanning a tag's attributes (the loop does not stop at
   * the first `href`): the value of the last `href`, or the current link
   * when there is none.
   */
  function LastHref(attrs: seq<Attr>, current: Option<string>): (r: Option<string>)
    ensures (forall i :: 0 <= i < |attrs| ==> attrs[i].name != "href") ==> r == current
    ensures (exists i :: 0 <= i < |attrs| && attrs[i].name == "href") ==>
      exists i :: && 0 <= i < |attrs| && attrs[i].name == "href" && r == attrs[i].value
                  && forall j :: i < j < |attrs| ==> attrs[j].name != "href"
  {
    if attrs == [] then current
    else if attrs[|attrs| - 1].name == "href" then attrs[|attrs| - 1].value
    else LastHref(attrs[..|attrs| - 1], current)
  }

  // ---------------------------------------------------------------------
  // Reading a date or a time out of the text a pattern matched.
  // ---------------------------------------------------------------------

  /** The number of day digits: the date text's first '.' follows them. */
  function DayLength(t: string): nat
    requires IsDateText(t)
  {
    if t[1] == '.' then 1 else 2
  }

  /** The text without its year, if it has one. */
  function DayMonthOf(t: string): string
    requires IsDateText(t)
  {
    if IsDayMonthText(t) then t else t[..|t| - 5]
  }

  function DayField(t: string): string
    requires IsDateText(t)
  {
    t[..DayLength(t)]
  }

  function MonthField(t: string): string
    requires IsDateText(t)
  {
    t[DayLength(t) + 1..|DayMonthOf(t)|]
  }

  function YearField(t: string): string
    requires IsDateText(t) && !IsDayMonthText(t)
  {
    t[|t| - 4..]
  }

  lemma DigitsHaveNoSeparator(s: string, sep: char)
    requires AllDigits(s) && !IsDigit(sep)
    ensures sep !in s
  {
  }

  /** `t.split('.')` of a date text gives its day, month and (if present) year fields. */
  lemma DateTextSplit(t: string)
    requires IsDateText(t)
    ensures IsDayMonthText(t) ==> Split(t, '.') == [DayField(t), MonthField(t)]
    ensures !IsDayMonthText(t) ==> Split(t, '.') == [DayField(t), MonthField(t), YearField(t)]
  {
    var dm := DayMonthOf(t);
    var k := DayLength(t);
    assert IsDayMonthText(dm) && dm[..k] == DayField(t) && dm[k] == '.' && dm[k + 1..] == MonthField(t);
    assert IsMonthText(dm[k + 1..]);
    DigitsHaveNoSeparator(DayField(t), '.');
    DigitsHaveNoSeparator(MonthField(t), '.');
    assert dm == DayField(t) + ['.'] + MonthField(t);
    if IsDayMonthText(t) {
      assert t == DayField(t) + ['.'] + MonthField(t);
      SplitTwo(DayField(t), '.', MonthField(t));
    } else {
      var u := t[|t| - 5..];
      assert IsYearText(u) && t == dm + u;
      assert u == ['.'] + YearField(t);
      forall i | 0 <= i < 4 ensures IsDigit(YearField(t)[i]) {
        assert YearField(t)[i] == u[i + 1];
      }
      DigitsHaveNoSeparator(YearField(t), '.');
      assert t == DayField(t) + ['.'] + MonthField(t) + ['.'] + YearField(t);
      SplitThree(DayField(t), '.', MonthField(t), YearField(t));
    }
  }

  /** The year pattern admits 2010..2019 only. */
  lemma YearFieldRange(t: string)
    requires IsDateText(t)
    ensures !IsDayMonthText(t) ==> 2010 <= DecimalValue(YearField(t)) <= 2019
  {
    if !IsDayMonthText(t) {
      FourDigitValue(YearField(t));
    }
  }

  /**
   * Lines 106-108: split the matched text at '.', convert the parts with
   * `int` and pass them to `date` in reverse order. Without a year that is
   * `date(month, day)`, which lacks its third argument.
   */
  function DateFromText(t: string): (r: Result<Date, DateTimeError>)
    requires IsDateText(t)
    ensures IsDayMonthText(t) ==> r == Failure(WrongArity)
    ensures !IsDayMonthText(t) ==>
      r == MakeDate([DecimalValue(YearField(t)), DecimalValue(MonthField(t)), DecimalValue(DayField(t))])
    ensures r.Success? ==> 2010 <= r.value.year <= 2019
  {
    DateTextSplit(t);
    YearFieldRange(t);
    MakeDate(Reversed(DecimalValues(Split(t, '.'))))
  }

  function HourField(t: string): string
    requires IsTimeText(t)
  {
    t[..|t| - 3]
  }

  function MinuteField(t: string): string
    requires IsTimeText(t)
  {
    t[|t| - 2..]
  }

  lemma TimeTextSplit(t: string)
    requires IsTimeText(t)
    ensures Split(t, ':') == [HourField(t), MinuteField(t)]
  {
    assert t == HourField(t) + [':'] + MinuteField(t);
    DigitsHaveNoSeparator(HourField(t), ':');
    SplitAtFirstSeparator(HourField(t), ':', MinuteField(t));
    DigitsHaveNoSeparator(MinuteField(t), ':');
    SplitWithoutSeparator(MinuteField(t), ':');
  }

  /**
   * Lines 111-113: split the matched text at ':' and pass both parts to
   * `time`. The pattern admits minutes 00..59 only, so the call fails
   * exactly when the hour is 24..29.
   */
  function TimeFromText(t: string): (r: Result<Time, DateTimeError>)
    requires IsTimeText(t)
    ensures r.Failure? <==> DecimalValue(HourField(t)) >= 24
    ensures r.Success? ==> r.value == Time(DecimalValue(HourField(t)), DecimalValue(MinuteField(t)))
  {
    TimeTextSplit(t);
    TwoDigitValue(MinuteField(t));
    var values := DecimalValues(Split(t, ':'));
    MakeTime(values[0], values[1])
  }

  /** A conversion that was attempted and raised. */
  predicate Rejected<T>(r: Option<Result<T, DateTimeError>>)
  {
    r.Some? && r.value.Failure?
  }

  /** A conversion that was attempted and gave a value. */
  predicate Accepted<T>(r: Option<Result<T, DateTimeError>>)
  {
    r.Some? && r.value.Success?
  }

  /**
   * The first date match of a chunk, converted (lines 104-108); None when
   * the chunk has no match.
   */
  function ChunkDate(data: string): (r: Option<Result<Date, DateTimeError>>)
    ensures r.None? <==> forall k, j :: 0 <= k <= j <= |data| ==> !IsDateText(data[k..j])
    ensures Accepted(r) ==> 2010 <= r.value.value.year <= 2019
    ensures Rejected(r) ==> r.value.error in {WrongArity, DateOutOfRange}
  {
    match Search(DatePattern, data)
    case None => None
    case Some(sp) => Some(DateFromText(data[sp.start..sp.end]))
  }

  /** The first time match of a chunk, converted (lines 109-113). */
  function ChunkTime(data: string): (r: Option<Result<Time, DateTimeError>>)
    ensures r.None? <==> forall k, j :: 0 <= k <= j <= |data| ==> !IsTimeText(data[k..j])
    ensures Rejected(r) ==> r.value.error == TimeOutOfRange
  {
    match Search(TimePattern, data)
    case None => None
    case Some(sp) => Some(TimeFromText(data[sp.start..sp.end]))
  }

  // ---------------------------------------------------------------------
  // The three callbacks.
  // ---------------------------------------------------------------------

  /** `handle_starttag` (lines 71-93). */
  function OnStartTag(st: State, tag: string, attrs: seq<Attr>): (r: State)
    ensures r.style == st.style && r.content == st.content && r.inMasterP == st.inMasterP
    ensures r.date == st.date && r.time == st.time
    // the rebuilt markup grows only inside the region, by the tag with all its attributes
    ensures !(st.style != "" && st.inContentDiv) ==> r.htmlContent == st.htmlContent
    ensures st.style != "" && st.inContentDiv ==> r.htmlContent == st.htmlContent + OpenTagText(tag, attrs)
    // the region opens exactly on a div carrying the style as its class, at level 0
    ensures !st.inContentDiv ==>
      (r.inContentDiv <==> st.style != "" && tag == "div" && HasClass(attrs, st.style))
    ensures !st.inContentDiv && r.inContentDiv ==> r.divLevel == 0
    ensures !r.inContentDiv ==> r.divLevel == st.divLevel
    // inside the region every nested div deepens the level by one
    ensures st.style != "" && st.inContentDiv ==>
      r.inContentDiv && r.divLevel == st.divLevel + (if tag == "div" then 1 else 0)
    // the link is taken from an anchor in the master paragraph while it is still falsy
    ensures Truthy(st.link) ==> r.link == st.link
    ensures r.link != st.link ==>
      && st.inMasterP && tag == "a"
      && exists i :: 0 <= i < |attrs| && attrs[i].name == "href" && r.link == attrs[i].value
    // and an anchor in the master paragraph with a falsy link does take its last href
    ensures st.inMasterP && tag == "a" && !Truthy(st.link) ==> r.link == LastHref(attrs, st.link)
  {
    var html :=
      if st.style != "" && st.inContentDiv then st.htmlContent + OpenTagText(tag, attrs)
      else st.htmlContent;
    var (inDiv, level) :=
      if st.style != "" && tag == "div" then
        (if !st.inContentDiv then
           (HasClass(attrs, st.style), if HasClass(attrs, st.style) then 0 else st.divLevel)
         else (true, st.divLevel + 1))
      else (st.inContentDiv, st.divLevel);
    var link :=
      if st.inMasterP && tag == "a" && !Truthy(st.link) then LastHref(attrs, st.link) else st.link;
    st.(htmlContent := html, inContentDiv := inDiv, divLevel := level, link := link)
  }

  /**
   * `handle_data` (lines 95-113). A date or time the constructors reject
   * raises: the fields changed before the raise stay changed.
   */
  function OnData(st: State, data: string): (r: StepResult)
    ensures && r.state.style == st.style && r.state.inContentDiv == st.inContentDiv
            && r.state.divLevel == st.divLevel && r.state.link == st.link
    ensures r.state.htmlContent == st.htmlContent + (if st.inContentDiv then data else "")
    // outside the region nothing else is touched, whatever the style
    ensures !st.inContentDiv ==> r == StepResult(st, None)
    // inside it the chunk is collected, and its text may open the master paragraph
    ensures st.inContentDiv ==> r.state.content == st.content + data
    ensures st.inContentDiv ==>
      (r.state.inMasterP <==> st.inMasterP || Contains(Lower(data), MasterTrigger))
    ensures r.error.Some? ==> r.state.inMasterP && r.error.value in {WrongArity, DateOutOfRange, TimeOutOfRange}
    // it raises exactly when, in the master paragraph, the chunk's date or time is rejected;
    // the date comes first, and a date stored before the time raises stays stored
    ensures r.error.Some? <==>
      st.inContentDiv && r.state.inMasterP && (Rejected(ChunkDate(data)) || Rejected(ChunkTime(data)))
    ensures r.error.Some? && Rejected(ChunkDate(data)) ==> r.error.value == ChunkDate(data).value.error
    ensures r.error.Some? && !Rejected(ChunkDate(data)) ==> r.error.value == ChunkTime(data).value.error
    ensures st.inContentDiv && r.state.inMasterP && Accepted(ChunkDate(data)) ==>
      r.state.date == Some(ChunkDate(data).value.value)
    // the date and time change only in the master paragraph, and only on a match
    ensures !r.state.inMasterP ==> r.state.date == st.date && r.state.time == st.time
    ensures ChunkDate(data).None? ==> r.state.date == st.date
    ensures ChunkTime(data).None? ==> r.state.time == st.time
    ensures st.inContentDiv && r.state.inMasterP && r.error.None? && ChunkDate(data).Some? ==>
      ChunkDate(data).value.Success? && r.state.date == Some(ChunkDate(data).value.value)
    ensures st.inContentDiv && r.state.inMasterP && r.error.None? && ChunkTime(data).Some? ==>
      ChunkTime(data).value.Success? && r.state.time == Some(ChunkTime(data).value.value)
  {
    var html := if st.inContentDiv then st.htmlContent + data else st.htmlContent;
    if !(st.inContentDiv || ModuleContentDivStyle == "") then
      StepResult(st.(htmlContent := html), None)
    else
      var inP := st.inMasterP || Contains(Lower(data), MasterTrigger);
      var collected := st.(htmlContent := html, content := st.content + data, inMasterP := inP);
      if !inP then StepResult(collected, None) else ReadChunk(collected, data)
  }

  /** Lines 104-113: the chunk's first date match, then its first time match. */
  function ReadChunk(st: State, data: string): (r: StepResult)
    ensures r.state.(date := st.date, time := st.time) == st
    ensures r.error.Some? <==> Rejected(ChunkDate(data)) || Rejected(ChunkTime(data))
    // a rejected date raises before the time is looked at
    ensures Rejected(ChunkDate(data)) ==> r == StepResult(st, Some(ChunkDate(data).value.error))
    ensures !Rejected(ChunkDate(data)) && Rejected(ChunkTime(data)) ==>
      r.error == Some(ChunkTime(data).value.error)
    // an accepted date is stored even when the time then raises
    ensures Accepted(ChunkDate(data)) ==> r.state.date == Some(ChunkDate(data).value.value)
    ensures !Accepted(ChunkDate(data)) ==> r.state.date == st.date
    ensures !Rejected(ChunkDate(data)) && Accepted(ChunkTime(data)) ==>
      r.state.time == Some(ChunkTime(data).value.value)
    ensures Rejected(ChunkDate(data)) || !Accepted(ChunkTime(data)) ==> r.state.time == st.time
  {
    match ChunkDate(data)
    case Some(Failure(e)) => StepResult(st, Some(e))
    case Some(Success(d)) => WithChunkTime(st.(date := Some(d)), data)
    case None => WithChunkTime(st, data)
  }

  /** The time half of the data callback (lines 109-113). */
  function WithChunkTime(st: State, data: string): (r: StepResult)
    ensures r.state.(time := st.time) == st
    ensures r.error.Some? <==> Rejected(ChunkTime(data))
    ensures Rejected(ChunkTime(data)) ==> r.error == Some(ChunkTime(data).value.error)
    ensures Accepted(ChunkTime(data)) ==> r.state.time == Some(ChunkTime(data).value.value)
    ensures !Accepted(ChunkTime(data)) ==> r.state.time == st.time
  {
    match ChunkTime(data)
    case Some(Failure(e)) => StepResult(st, Some(e))
    case Some(Success(t)) => StepResult(st.(time := Some(t)), None)
    case None => StepResult(st, None)
  }

  /** `handle_endtag` (lines 115-126). */
  function OnEndTag(st: State, tag: string): (r: State)
    ensures && r.style == st.style && r.content == st.content && r.link == st.link
            && r.date == st.date && r.time == st.time
    ensures !(st.style != "" && st.inContentDiv) ==>
      r.htmlContent == st.htmlContent && r.inContentDiv == st.inContentDiv && r.divLevel == st.divLevel
    // inside the region every end tag, the region's own closing div included, is copied
    ensures st.style != "" && st.inContentDiv ==> r.htmlContent == st.htmlContent + CloseTagText(tag)
    // the region closes exactly at a div end reached at level 0
    ensures st.style != "" && st.inContentDiv ==>
      (r.inContentDiv <==> !(tag == "div" && st.divLevel == 0))
    ensures st.style != "" && st.inContentDiv && tag == "div" && st.divLevel != 0 ==>
      r.divLevel == st.divLevel - 1
    ensures tag != "div" ==> r.divLevel == st.divLevel
    // any paragraph end closes the master paragraph
    ensures r.inMasterP <==> st.inMasterP && tag != "p"
  {
    var (html, inDiv, level) :=
      if st.style != "" && st.inContentDiv then
        (st.htmlContent + CloseTagText(tag),
         if tag == "div" && st.divLevel == 0 then false else true,
         if tag == "div" && st.divLevel != 0 then st.divLevel - 1 else st.divLevel)
      else (st.htmlContent, st.inContentDiv, st.divLevel);
    var inP := if st.inMasterP && tag == "p" then false else st.inMasterP;
    st.(htmlContent := html, inContentDiv := inDiv, divLevel := level, inMasterP := inP)
  }

  /** The callback the tokenizer invokes for one event; only the data callback can raise. */
  function Step(st: State, e: Event): (r: StepResult)
    ensures r.state.style == st.style
    ensures !e.Data? ==> r.error.None?
    ensures !e.Data? ==> r.state.date == st.date && r.state.time == st.time && r.state.content == st.content
  {
    match e
    case StartTag(tag, attrs) => StepResult(OnStartTag(st, tag, attrs), None)
    case Data(text) => OnData(st, text)
    case EndTag(tag) => StepResult(OnEndTag(st, tag), None)
  }

  /** The callbacks run over the events in order; the first exception stops the run. */
  function Run(st: State, events: seq<Event>): (r: StepResult)
    decreases |events|
    ensures r.state.style == st.style
    ensures events == [] ==> r == StepResult(st, None)
    ensures (forall i :: 0 <= i < |events| ==> !events[i].Data?) ==> r.error.None?
  {
    if events == [] then StepResult(st, None)
    else
      var r := Step(st, events[0]);
      if r.error.Some? then r else Run(r.state, events[1..])
  }

  /** `feed` (lines 128-130): run the callbacks, then `datetime.combine(date, time)`. */
  function FeedResult(st: State, events: seq<Event>): (r: Result<DateTime, DateTimeError>)
    ensures r.Success? <==>
      && Run(st, events).error.None?
      && Run(st, events).state.date.Some? && Run(st, events).state.time.Some?
    ensures r.Success? ==>
      r.value == DateTime(Run(st, events).state.date.value, Run(st, events).state.time.value)
    ensures Run(st, events).error.Some? ==> r == Failure(Run(st, events).error.value)
  {
    var run := Run(st, events);
    if run.error.Some? then Failure(run.error.value) else Combine(run.state.date, run.state.time)
  }
}
