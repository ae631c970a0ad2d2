/** Concrete chunks of a master paragraph and what the page parser reads from them. */
module ScheduleExamples {
  import opened Wrappers
  import opened Text
  import opened Patterns
  import opened Calendar
  import opened ScheduleState

  /** A chunk holding a full date is read as that date. */
  lemma FullDateChunk()
    ensures ChunkDate("19.10.2016") == Some(Success(Date(2016, 10, 19)))
  {
    FullDateFound();
    FullDateRead();
    assert "19.10.2016"[0..10] == "19.10.2016";
  }

  /** The whole chunk is the match: day and month along the first path, then the year. */
  lemma FullDateFound()
    ensures Search(DatePattern, "19.10.2016") == Some(Span(0, 10))
  {
    var s := "19.10.2016";
    assert DayMonthPath(s, 0, true, true) == Some(5);
    assert IsYearText(s[5..10]);
  }

  lemma FullDateRead()
    ensures IsDateText("19.10.2016")
    ensures DateFromText("19.10.2016") == Success(Date(2016, 10, 19))
  {
    FullDateShape();
    FullDateFields();
    TwoDigitValue("19");
    TwoDigitValue("10");
    FourDigitValue("2016");
    DateFromFields("19.10.2016", 2016, 10, 19);
  }

  /** A date match with a year is read from its three fields. */
  lemma DateFromFields(t: string, year: int, month: int, day: int)
    requires IsDateText(t) && !IsDayMonthText(t)
    requires DecimalValue(YearField(t)) == year
    requires DecimalValue(MonthField(t)) == month
    requires DecimalValue(DayField(t)) == day
    requires IsValidDate(year, month, day)
    ensures DateFromText(t) == Success(Date(year, month, day))
  {
  }

  lemma FullDateShape()
    ensures IsDateText("19.10.2016") && !IsDayMonthText("19.10.2016")
  {
    var s := "19.10.2016";
    assert s[..5] == "19.10" && s[5..] == ".2016";
    assert "19.10"[3..] == "10";
  }

  lemma FullDateFields()
    requires IsDateText("19.10.2016") && !IsDayMonthText("19.10.2016")
    ensures DayField("19.10.2016") == "19"
    ensures MonthField("19.10.2016") == "10"
    ensures YearField("19.10.2016") == "2016"
  {
  }

  /** A chunk holding a time is read as that time. */
  lemma TimeChunk()
    ensures ChunkTime("17:20") == Some(Success(Time(17, 20)))
  {
    TimeFound();
    assert "17:20"[0..5] == "17:20";
    TimeRead();
  }

  /** The whole chunk is the match, along the path that takes the leading hour digit. */
  lemma TimeFound()
    ensures Search(TimePattern, "17:20") == Some(Span(0, 5))
  {
    assert TimePath("17:20", 0, true) == Some(5);
  }

  lemma TimeRead()
    ensures IsTimeText("17:20")
    ensures TimeFromText("17:20") == Success(Time(17, 20))
  {
    TimeFields();
    TwoDigitValue("17");
    TwoDigitValue("20");
    TimeFromFields("17:20", 17, 20);
  }

  lemma TimeFields()
    ensures IsTimeText("17:20")
    ensures HourField("17:20") == "17" && MinuteField("17:20") == "20"
  {
  }

  /** A time match is read from its two fields when the hour is below 24. */
  lemma TimeFromFields(t: string, hour: int, minute: int)
    requires IsTimeText(t)
    requires DecimalValue(HourField(t)) == hour && DecimalValue(MinuteField(t)) == minute
    requires hour < 24
    ensures TimeFromText(t) == Success(Time(hour, minute))
  {
  }

  /**
   * A chunk that begins with a month and a year (the day fell into the
   * previous chunk): the first match is "10.2", a day and a month without
   * a year, which the date constructor rejects for its arity.
   */
  lemma SplitDateChunk()
    ensures ChunkDate("10.2016 г.") == Some(Failure(WrongArity))
  {
    SplitDateFound();
    assert "10.2016 г."[0..4] == "10.2";
    assert IsDayMonthText("10.2") by {
      assert "10.2"[3..] == "2";
    }
  }

  /** The month may not start with '2', so the first path fails and the second stops after "10.2". */
  lemma SplitDateFound()
    ensures Search(DatePattern, "10.2016 г.") == Some(Span(0, 4))
  {
    var s := "10.2016 г.";
    assert DayMonthPath(s, 0, true, true) == None;
    assert DayMonthPath(s, 0, true, false) == Some(4);
    assert !IsYearText(s[4..9]);
  }
}
