/** What runs of the schedule page parser's callbacks guarantee. */
module ScheduleProperties {
  import opened Wrappers
  import opened Text
  import opened Patterns
  import opened Calendar
  import opened Markup
  import opened ScheduleState

  // ---------------------------------------------------------------------
  // Composition of runs.
  // ---------------------------------------------------------------------

  /** Feeding two event sequences one after the other is feeding their concatenation. */
  lemma {:induction false} RunConcat(st: State, a: seq<Event>, b: seq<Event>)
    ensures Run(st, a + b) == if Run(st, a).error.Some? then Run(st, a) else Run(Run(st, a).state, b)
    decreases |a|
  {
    if a == [] {
      assert a + b == b;
    } else {
      assert (a + b)[0] == a[0] && (a + b)[1..] == a[1..] + b;
      if Step(st, a[0]).error.None? {
        RunConcat(Step(st, a[0]).state, a[1..], b);
      }
    }
  }

  // ---------------------------------------------------------------------
  // Region nesting.
  // ---------------------------------------------------------------------

  /** The nesting level is never negative, is 0 outside the region, and there is no region without a style. */
  predicate Consistent(st: State)
  {
    && st.divLevel >= 0
    && (!st.inContentDiv ==> st.divLevel == 0)
    && (st.inContentDiv ==> st.style != "")
  }

  lemma {:induction false} RunKeepsConsistent(st: State, events: seq<Event>)
    requires Consistent(st)
    ensures Consistent(Run(st, events).state)
    decreases |events|
  {
    if events != [] {
      var r := Step(st, events[0]);
      assert Consistent(r.state);
      if r.error.None? {
        RunKeepsConsistent(r.state, events[1..]);
      }
    }
  }

  /** `div_level` never goes negative, whatever the page. */
  lemma ParserLevelNeverNegative(style: string, events: seq<Event>)
    ensures Run(Initial(style), events).state.divLevel >= 0
  {
    RunKeepsConsistent(Initial(style), events);
  }

  function DivDelta(e: Event): int
  {
    if e.StartTag? && e.tag == "div" then 1 else if e.EndTag? && e.tag == "div" then -1 else 0
  }

  /** Opened minus closed `div` tags. */
  function DivBalance(events: seq<Event>): int
  {
    if events == [] then 0 else DivDelta(events[0]) + DivBalance(events[1..])
  }

  /** No prefix of the events closes more divs than are open above the given level. */
  predicate StaysNested(level: int, events: seq<Event>)
  {
    forall k :: 0 <= k <= |events| ==> level + DivBalance(events[..k]) >= 0
  }

  lemma StaysNestedTail(level: int, events: seq<Event>)
    requires events != [] && StaysNested(level, events)
    ensures level + DivDelta(events[0]) >= 0
    ensures StaysNested(level + DivDelta(events[0]), events[1..])
  {
    assert events[..1] == [events[0]] && DivBalance([events[0]]) == DivDelta(events[0]);
    forall k | 0 <= k <= |events| - 1
      ensures level + DivDelta(events[0]) + DivBalance(events[1..][..k]) >= 0
    {
      assert events[..k + 1][1..] == events[1..][..k];
      assert DivBalance(events[..k + 1]) == DivDelta(events[0]) + DivBalance(events[1..][..k]);
    }
  }

  /**
   * The first step of a run inside the region, with the state it leads
   * to: the region stays open, the level moves by the event's div
   * balance, and the event's markup and text are appended.
   */
  lemma FirstStepInsideRegion(st: State, events: seq<Event>) returns (next: State)
    requires st.style != "" && st.inContentDiv
    requires events != [] && StaysNested(st.divLevel, events)
    requires Run(st, events).error.None?
    ensures next.style == st.style && next.inContentDiv
    ensures next.divLevel == st.divLevel + DivDelta(events[0])
    ensures StaysNested(next.divLevel, events[1..])
    ensures next.htmlContent == st.htmlContent + EventMarkup(events[0])
    ensures next.content == st.content + EventData(events[0])
    ensures Run(next, events[1..]) == Run(st, events)
  {
    next := Step(st, events[0]).state;
    StaysNestedTail(st.divLevel, events);
    StepInsideRegion(st, events[0]);
  }

  /**
   * Inside the region, and as long as the div tags never close it, the
   * region stays open at the region's level plus the divs opened since.
   */
  lemma {:induction false} RunInsideRegion(st: State, events: seq<Event>)
    requires st.style != "" && st.inContentDiv
    requires StaysNested(st.divLevel, events)
    requires Run(st, events).error.None?
    decreases |events|
    ensures Run(st, events).state.style == st.style && Run(st, events).state.inContentDiv
    ensures Run(st, events).state.divLevel == st.divLevel + DivBalance(events)
  {
    if events != [] {
      var next := FirstStepInsideRegion(st, events);
      RunInsideRegion(next, events[1..]);
    }
  }

  /**
   * While the region stays open, `html_content` grows by every event
   * rendered back to markup: each start tag with all its attributes in
   * order, each end tag, each chunk.
   */
  lemma {:induction false} RunInsideRegionMarkup(st: State, events: seq<Event>)
    requires st.style != "" && st.inContentDiv
    requires StaysNested(st.divLevel, events)
    requires Run(st, events).error.None?
    decreases |events|
    ensures Run(st, events).state.htmlContent == st.htmlContent + MarkupText(events)
  {
    if events != [] {
      var next := FirstStepInsideRegion(st, events);
      RunInsideRegionMarkup(next, events[1..]);
      ConcatAssoc(st.htmlContent, EventMarkup(events[0]), MarkupText(events[1..]));
    }
  }

  /** While the region stays open, `content` grows by every chunk, in order. */
  lemma {:induction false} RunInsideRegionContent(st: State, events: seq<Event>)
    requires st.style != "" && st.inContentDiv
    requires StaysNested(st.divLevel, events)
    requires Run(st, events).error.None?
    decreases |events|
    ensures Run(st, events).state.content == st.content + DataText(events)
  {
    if events != [] {
      var next := FirstStepInsideRegion(st, events);
      RunInsideRegionContent(next, events[1..]);
      ConcatAssoc(st.content, EventData(events[0]), DataText(events[1..]));
    }
  }

  lemma StepInsideRegion(st: State, e: Event)
    requires st.style != "" && st.inContentDiv
    requires st.divLevel + DivDelta(e) >= 0
    requires Step(st, e).error.None?
    ensures Step(st, e).state.style == st.style
    ensures Step(st, e).state.inContentDiv
    ensures Step(st, e).state.divLevel == st.divLevel + DivDelta(e)
    ensures Step(st, e).state.htmlContent == st.htmlContent + EventMarkup(e)
    ensures Step(st, e).state.content == st.content + EventData(e)
  {
  }

  /** The `</div>` that brings the level back below the region's own closes it, and is copied. */
  lemma RegionClosesAtMatchingEnd(st: State, events: seq<Event>)
    requires st.style != "" && st.inContentDiv
    requires StaysNested(st.divLevel, events) && st.divLevel + DivBalance(events) == 0
    requires Run(st, events).error.None?
    ensures Run(st, events + [EndTag("div")]).error.None?
    ensures !Run(st, events + [EndTag("div")]).state.inContentDiv
    ensures Run(st, events + [EndTag("div")]).state.htmlContent
            == st.htmlContent + MarkupText(events) + "</div>"
  {
    RunInsideRegion(st, events);
    RunInsideRegionMarkup(st, events);
    RunConcat(st, events, [EndTag("div")]);
    CloseAtLevelZero(Run(st, events).state);
  }

  /** At level 0 inside the region, `</div>` closes it and is copied. */
  lemma CloseAtLevelZero(r: State)
    requires r.style != "" && r.inContentDiv && r.divLevel == 0
    ensures Run(r, [EndTag("div")]).error.None?
    ensures !Run(r, [EndTag("div")]).state.inContentDiv
    ensures Run(r, [EndTag("div")]).state.htmlContent == r.htmlContent + "</div>"
  {
    var closed := OnEndTag(r, "div");
    assert !closed.inContentDiv && closed.htmlContent == r.htmlContent + "</div>";
    assert Run(r, [EndTag("div")]) == StepResult(closed, None);
  }

  /** A start tag that opens the region. */
  predicate OpensRegion(style: string, e: Event)
  {
    e.StartTag? && e.tag == "div" && style != "" && HasClass(e.attrs, style)
  }

  /** Outside the region, and with no styled div to enter it, neither text field nor the date and time change. */
  lemma {:induction false} RunOutsideRegion(st: State, events: seq<Event>)
    requires !st.inContentDiv
    requires forall i :: 0 <= i < |events| ==> !OpensRegion(st.style, events[i])
    ensures Run(st, events).error.None?
    ensures !Run(st, events).state.inContentDiv
    ensures Run(st, events).state.htmlContent == st.htmlContent
    ensures Run(st, events).state.content == st.content
    ensures Run(st, events).state.date == st.date && Run(st, events).state.time == st.time
    decreases |events|
  {
    if events != [] {
      var r := Step(st, events[0]);
      assert !OpensRegion(st.style, events[0]);
      assert r.error.None? && !r.state.inContentDiv;
      RunOutsideRegion(r.state, events[1..]);
    }
  }

  /**
   * A parser built without a style never changes: the start and end
   * handlers need a style, and the data handler tests the (non-empty)
   * module-level style instead of the parser's own.
   */
  lemma {:induction false} NoStyleIsInert(st: State, events: seq<Event>)
    requires st.style == "" && !st.inContentDiv && !st.inMasterP
    ensures Run(st, events) == StepResult(st, None)
  {
    if events != [] {
      assert Step(st, events[0]) == StepResult(st, None);
      NoStyleIsInert(st, events[1..]);
    }
  }

  /** Without a style `html_content` and `content` stay empty and `feed` always fails on the missing date. */
  lemma FeedWithoutStyle(events: seq<Event>)
    ensures Run(Initial(""), events).state == Initial("")
    ensures FeedResult(Initial(""), events) == Failure(DateIsNone)
  {
    NoStyleIsInert(Initial(""), events);
  }

  // ---------------------------------------------------------------------
  // The link.
  // ---------------------------------------------------------------------

  /** Once the link is non-empty it never changes. */
  lemma {:induction false} LinkStable(st: State, events: seq<Event>)
    requires Truthy(st.link)
    ensures Run(st, events).state.link == st.link
    decreases |events|
  {
    if events != [] {
      var r := Step(st, events[0]);
      assert r.state.link == st.link;
      if r.error.None? {
        LinkStable(r.state, events[1..]);
      }
    }
  }

  // ---------------------------------------------------------------------
  // Date and time in the master paragraph.
  // ---------------------------------------------------------------------

  /** The date after one event of the master paragraph: a chunk's accepted first match replaces it. */
  function EventDate(e: Event, current: Option<Date>): Option<Date>
  {
    if e.Data? && Accepted(ChunkDate(e.text)) then Some(ChunkDate(e.text).value.value) else current
  }

  function EventTime(e: Event, current: Option<Time>): Option<Time>
  {
    if e.Data? && Accepted(ChunkTime(e.text)) then Some(ChunkTime(e.text).value.value) else current
  }

  /** The date after the events, one event at a time. */
  function LastDate(events: seq<Event>, current: Option<Date>): Option<Date>
    decreases |events|
  {
    if events == [] then current else LastDate(events[1..], EventDate(events[0], current))
  }

  function LastTime(events: seq<Event>, current: Option<Time>): Option<Time>
    decreases |events|
  {
    if events == [] then current else LastTime(events[1..], EventTime(events[0], current))
  }

  /** A chunk whose first date match is accepted. */
  predicate DatedChunk(e: Event)
  {
    e.Data? && Accepted(ChunkDate(e.text))
  }

  /** Without a chunk with an accepted date match the date stays as it was. */
  lemma {:induction false} UndatedEventsKeepDate(events: seq<Event>, current: Option<Date>)
    requires forall i :: 0 <= i < |events| ==> !DatedChunk(events[i])
    decreases |events|
    ensures LastDate(events, current) == current
  {
    if events != [] {
      assert !DatedChunk(events[0]);
      assert forall i :: 0 <= i < |events[1..]| ==> !DatedChunk(events[1..][i]) by {
        forall i | 0 <= i < |events[1..]|
          ensures !DatedChunk(events[1..][i])
        {
          assert events[1..][i] == events[i + 1];
        }
      }
      UndatedEventsKeepDate(events[1..], current);
    }
  }

  /** The date after the events is that of the last chunk with an accepted date match. */
  lemma {:induction false} LastDatedChunkWins(events: seq<Event>, i: nat, current: Option<Date>)
    requires i < |events| && DatedChunk(events[i])
    requires forall j :: i < j < |events| ==> !DatedChunk(events[j])
    decreases i
    ensures LastDate(events, current) == Some(ChunkDate(events[i].text).value.value)
  {
    var tail := events[1..];
    if i == 0 {
      assert forall j :: 0 <= j < |tail| ==> !DatedChunk(tail[j]) by {
        forall j | 0 <= j < |tail|
          ensures !DatedChunk(tail[j])
        {
          assert tail[j] == events[j + 1];
        }
      }
      UndatedEventsKeepDate(tail, EventDate(events[0], current));
    } else {
      assert tail[i - 1] == events[i];
      assert forall j :: i - 1 < j < |tail| ==> !DatedChunk(tail[j]) by {
        forall j | i - 1 < j < |tail|
          ensures !DatedChunk(tail[j])
        {
          assert tail[j] == events[j + 1];
        }
      }
      LastDatedChunkWins(tail, i - 1, EventDate(events[0], current));
    }
  }

  /** One event of the master paragraph that does not end it, with the state it leads to. */
  lemma FirstStepInParagraph(st: State, events: seq<Event>) returns (next: State)
    requires st.style != "" && st.inContentDiv && st.inMasterP
    requires events != [] && StaysNested(st.divLevel, events) && events[0] != EndTag("p")
    requires Run(st, events).error.None?
    ensures next.style == st.style && next.inContentDiv && next.inMasterP
    ensures StaysNested(next.divLevel, events[1..])
    ensures next.date == EventDate(events[0], st.date) && next.time == EventTime(events[0], st.time)
    ensures Run(next, events[1..]) == Run(st, events)
  {
    var r := Step(st, events[0]);
    next := r.state;
    assert r.error.None?;
    StaysNestedTail(st.divLevel, events);
    StepInsideRegion(st, events[0]);
  }

  /**
   * Within the master paragraph (no `</p>`, the region open throughout),
   * each chunk's accepted first match overwrites the date and the time,
   * and tags and chunks without a match keep them: the last matching
   * chunk wins.
   */
  lemma {:induction false} MasterParagraphKeepsLastMatch(st: State, events: seq<Event>)
    requires st.style != "" && st.inContentDiv && st.inMasterP
    requires StaysNested(st.divLevel, events)
    requires forall i :: 0 <= i < |events| ==> events[i] != EndTag("p")
    requires Run(st, events).error.None?
    decreases |events|
    ensures Run(st, events).state.inContentDiv && Run(st, events).state.inMasterP
    ensures Run(st, events).state.date == LastDate(events, st.date)
    ensures Run(st, events).state.time == LastTime(events, st.time)
  {
    if events != [] {
      var next := FirstStepInParagraph(st, events);
      assert forall i :: 0 <= i < |events[1..]| ==> events[1..][i] != EndTag("p") by {
        forall i | 0 <= i < |events[1..]|
          ensures events[1..][i] != EndTag("p")
        {
          assert events[1..][i] == events[i + 1];
        }
      }
      MasterParagraphKeepsLastMatch(next, events[1..]);
    }
  }
}
