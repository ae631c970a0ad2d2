/**
 * The schedule page parser as an object: its fields are updated in place
 * by the three tokenizer callbacks, and `Feed` replays a whole page's
 * events through them. Each method is proved to perform exactly the
 * transition of module ScheduleState.
 */
module SchedulePage {
  import opened Wrappers
  import opened Text
  import opened Patterns
  import opened Calendar
  import opened Markup
  import opened ScheduleState

  class SchedulePageParser {
    var contentDivStyle: string
    var inContentDiv: bool
    var inMasterP: bool
    var content: string
    var htmlContent: string
    var link: Option<string>
    var datetime: Option<DateTime>
    var date: Option<Date>
    var time: Option<Time>
    /** Python creates this field when the region first opens; it starts at 0 here. */
    var divLevel: int

    /** The fields as a value of the state machine. */
    function Fields(): State
      reads this
    {
      State(contentDivStyle, inContentDiv, divLevel, inMasterP, content, htmlContent, link, date, time)
    }

    constructor (style: string)
      ensures Fields() == Initial(style) && datetime == None
    {
      contentDivStyle := style;
      inContentDiv := false;
      inMasterP := false;
      content := "";
      htmlContent := "";
      link := None;
      datetime := None;
      date := None;
      time := None;
      divLevel := 0;
    }

    /** `handle_starttag` (lines 71-93). */
    method HandleStartTag(tag: string, attrs: seq<Attr>)
      modifies this
      ensures Fields() == OnStartTag(old(Fields()), tag, attrs)
      ensures datetime == old(datetime)
    {
      ghost var target := OnStartTag(Fields(), tag, attrs);
      if contentDivStyle != "" {
        if inContentDiv {
          var attrsStr := FormatAttrs(attrs);
          htmlContent := htmlContent + "<" + tag + attrsStr + ">";
        }
        if tag == "div" {
          if !inContentDiv {
            var found := FindClass(attrs, contentDivStyle);
            if found {
              inContentDiv := true;
              divLevel := 0;
            }
          } else {
            divLevel := divLevel + 1;
          }
        }
      }
      assert htmlContent == target.htmlContent;
      assert inContentDiv == target.inContentDiv && divLevel == target.divLevel;
      if inMasterP && tag == "a" && !Truthy(link) {
        link := ScanHref(attrs, link);
      }
      assert link == target.link;
    }

    /**
     * `handle_data` (lines 95-113). The exception the date or time
     * constructor raises is returned; the fields changed before it stay.
     */
    method HandleData(data: string) returns (error: Option<DateTimeError>)
      modifies this
      ensures StepResult(Fields(), error) == OnData(old(Fields()), data)
      ensures datetime == old(datetime)
    {
      error := None;
      if inContentDiv {
        htmlContent := htmlContent + data;
      }
      if inContentDiv || ModuleContentDivStyle == "" {
        content := content + data;
        if Contains(Lower(data), MasterTrigger) {
          inMasterP := true;
        }
        if inMasterP {
          error := ReadChunk(data);
        }
      }
    }

    /** Lines 104-113: the first date match, then the first time match, of one chunk. */
    method ReadChunk(data: string) returns (error: Option<DateTimeError>)
      modifies this
      ensures StepResult(Fields(), error) == ScheduleState.ReadChunk(old(Fields()), data)
      ensures datetime == old(datetime)
    {
      ghost var st0 := Fields();
      var dateMatch := Search(DatePattern, data);
      if dateMatch.Some? {
        var parsed := DateFromText(data[dateMatch.value.start..dateMatch.value.end]);
        assert ChunkDate(data) == Some(parsed);
        if parsed.Failure? {
          return Some(parsed.error);
        }
        date := Some(parsed.value);
      }
      assert ScheduleState.ReadChunk(st0, data) == WithChunkTime(Fields(), data);
      error := None;
      var timeMatch := Search(TimePattern, data);
      if timeMatch.Some? {
        var parsed := TimeFromText(data[timeMatch.value.start..timeMatch.value.end]);
        assert ChunkTime(data) == Some(parsed);
        if parsed.Failure? {
          return Some(parsed.error);
        }
        time := Some(parsed.value);
      }
    }

    /** `handle_endtag` (lines 115-126). */
    method HandleEndTag(tag: string)
      modifies this
      ensures Fields() == OnEndTag(old(Fields()), tag)
      ensures datetime == old(datetime)
    {
      ghost var target := OnEndTag(Fields(), tag);
      if contentDivStyle != "" && inContentDiv {
        htmlContent := htmlContent + "</" + tag + ">";
        if tag == "div" {
          if divLevel != 0 {
            divLevel := divLevel - 1;
          } else {
            inContentDiv := false;
          }
        }
      }
      assert htmlContent == target.htmlContent;
      assert inContentDiv == target.inContentDiv && divLevel == target.divLevel;
      if inMasterP && tag == "p" {
        inMasterP := false;
      }
    }

    /**
     * `feed` (lines 128-130): the callbacks over the page's events in
     * order, then the date and time combined into `datetime`. An exception
     * from a callback or from `combine` is returned as the failure.
     */
    method Feed(events: seq<Event>) returns (outcome: Result<DateTime, DateTimeError>)
      modifies this
      ensures Fields() == Run(old(Fields()), events).state
      ensures outcome == FeedResult(old(Fields()), events)
      ensures datetime == if outcome.Success? then Some(outcome.value) else old(datetime)
    {
      var i := 0;
      while i < |events|
        invariant 0 <= i <= |events|
        invariant Run(old(Fields()), events) == Run(Fields(), events[i..])
        invariant datetime == old(datetime)
      {
        assert events[i..][0] == events[i] && events[i..][1..] == events[i + 1..];
        var error: Option<DateTimeError> := None;
        match events[i] {
          case StartTag(tag, attrs) => HandleStartTag(tag, attrs);
          case Data(text) => error := HandleData(text);
          case EndTag(tag) => HandleEndTag(tag);
        }
        if error.Some? {
          return Failure(error.value);
        }
        i := i + 1;
      }
      outcome := Combine(date, time);
      if outcome.Success? {
        datetime := Some(outcome.value);
      }
    }
  }

  /** The loop at line 76: each attribute as ` name="value"`, in order. */
  method FormatAttrs(attrs: seq<Attr>) returns (attrsStr: string)
    ensures attrsStr == AttrsText(attrs)
  {
    attrsStr := "";
    for i := 0 to |attrs|
      invariant attrsStr + AttrsText(attrs[i..]) == AttrsText(attrs)
    {
      assert attrs[i..][1..] == attrs[i + 1..];
      attrsStr := attrsStr + AttrText(attrs[i]);
    }
  }

  /** The loop at lines 82-87: stops at the first `class` attribute equal to the style. */
  method FindClass(attrs: seq<Attr>, style: string) returns (found: bool)
    ensures found <==> HasClass(attrs, style)
  {
    found := false;
    var i := 0;
    while i < |attrs|
      invariant 0 <= i <= |attrs|
      invariant forall j :: 0 <= j < i ==> !IsClassAttr(attrs[j], style)
    {
      if attrs[i].name == "class" && attrs[i].value == Some(style) {
        found := true;
        break;
      }
      i := i + 1;
    }
  }

  /** The loop at lines 91-93: every `href` overwrites the link, so the last one wins. */
  method ScanHref(attrs: seq<Attr>, link: Option<string>) returns (r: Option<string>)
    ensures r == LastHref(attrs, link)
  {
    r := link;
    for i := 0 to |attrs|
      invariant r == LastHref(attrs[..i], link)
    {
      assert attrs[..i + 1][..i] == attrs[..i];
      if attrs[i].name == "href" {
        r := attrs[i].value;
      }
    }
    assert attrs[..|attrs|] == attrs;
  }
}
