/**
 * The run's change detection: which flags a run raises, which labels it
 * reports, and how the labels appear in the subject and the summary line.
 */
module Changes {
  import opened Wrappers
  import opened Text
  import opened Calendar
  import opened Markup
  import opened ScheduleState

  newtype byte = x: int | 0 <= x < 256

  /** Raw bytes of a stored or downloaded file. */
  type Bytes = seq<byte>

  /** What the script reads off a parser after `feed`. */
  datatype Observation = Observation(content: string, link: Option<string>, datetime: DateTime)

  /** The five flags of lines 162-166. */
  datatype Flags = Flags(page: bool, content: bool, datetime: bool, link: bool, schedule: bool)

  /** Either the run ends silently (line 213) or it sends a report. */
  datatype Decision = NoOp | Report(flags: Flags)

  /**
   * A page parser built with the module's style and fed the page's
   * events (lines 204-206, 221-223): a feed that raises gives no
   * observation; otherwise `datetime` is always set.
   */
  function Observe(events: seq<Event>): (r: Result<Observation, DateTimeError>)
    ensures r.Success? <==> FeedResult(Initial(ModuleContentDivStyle), events).Success?
    ensures r.Failure? ==> r.error == FeedResult(Initial(ModuleContentDivStyle), events).error
    ensures r.Success? ==>
      var st := Run(Initial(ModuleContentDivStyle), events).state;
      r.value.content == st.content && r.value.link == st.link &&
      r.value.datetime == DateTime(st.date.value, st.time.value)
  {
    var st0 := Initial(ModuleContentDivStyle);
    match FeedResult(st0, events)
    case Failure(e) => Failure(e)
    case Success(dt) =>
      var st := Run(st0, events).state;
      Success(Observation(st.content, st.link, dt))
  }

  /**
   * Why a run stops before it decides anything: a `feed` raised, or the
   * current page's schedule link is None or "", so that `urlopen` raises
   * on it (lines 209 and 224).
   */
  datatype RunError = FeedFailed(cause: DateTimeError) | NoScheduleLink

  /**
   * Lines 197-233. The current page is parsed first, so its error ends the
   * run. When the page bytes are unchanged the schedule file is downloaded
   * from the current link and compared. Otherwise the stored page is parsed
   * too, the file is downloaded, and each of the four other flags compares
   * its own pair.
   */
  function Classify(lastPage: Bytes, currentPage: Bytes, lastSchedule: Bytes, currentSchedule: Bytes,
                    last: Result<Observation, DateTimeError>, current: Result<Observation, DateTimeError>)
    : (r: Result<Decision, RunError>)
    ensures current.Failure? ==> r == Failure(FeedFailed(current.error))
    ensures current.Success? && lastPage != currentPage && last.Failure? ==> r == Failure(FeedFailed(last.error))
    ensures r.Failure? && r.error.FeedFailed? ==> current.Failure? || (lastPage != currentPage && last.Failure?)
    // the download from a falsy link raises, once both feeds have succeeded
    ensures r == Failure(NoScheduleLink) <==>
      current.Success? && !Truthy(current.value.link) && (lastPage == currentPage || last.Success?)
    ensures r == Success(NoOp) <==>
      current.Success? && Truthy(current.value.link) && lastPage == currentPage && lastSchedule == currentSchedule
    ensures r.Success? && r.value.Report? ==>
      var f := r.value.flags;
      && Truthy(current.value.link)
      && (f.page <==> lastPage != currentPage)
      && (f.schedule <==> lastSchedule != currentSchedule)
      && (f.page || f.schedule)
      && (f.link <==> f.page && last.value.link != current.value.link)
      && (f.content <==> f.page && last.value.content != current.value.content)
      && (f.datetime <==> f.page && last.value.datetime != current.value.datetime)
  {
    if current.Failure? then Failure(FeedFailed(current.error))
    else if lastPage == currentPage then
      if !Truthy(current.value.link) then Failure(NoScheduleLink)
      else if currentSchedule != lastSchedule then Success(Report(Flags(false, false, false, false, true)))
      else Success(NoOp)
    else if last.Failure? then Failure(FeedFailed(last.error))
    else if !Truthy(current.value.link) then Failure(NoScheduleLink)
    else
      Success(Report(Flags(
        page := true,
        content := last.value.content != current.value.content,
        datetime := last.value.datetime != current.value.datetime,
        link := last.value.link != current.value.link,
        schedule := currentSchedule != lastSchedule)))
  }

  /** The same files on both sides never produce a report; the run still needs a link to download from. */
  lemma IdenticalInputsAreQuiet(page: Bytes, schedule: Bytes, obs: Observation)
    ensures Classify(page, page, schedule, schedule, Success(obs), Success(obs))
         == if Truthy(obs.link) then Success(NoOp) else Failure(NoScheduleLink)
  {
  }

  /**
   * Every flag is a plain inequality, so exchanging the two sides changes
   * nothing, as long as both pages carry a link (only the current one is
   * downloaded from).
   */
  lemma ClassifySymmetric(lastPage: Bytes, currentPage: Bytes, lastSchedule: Bytes, currentSchedule: Bytes,
                          last: Observation, current: Observation)
    requires Truthy(last.link) && Truthy(current.link)
    ensures Classify(lastPage, currentPage, lastSchedule, currentSchedule, Success(last), Success(current))
         == Classify(currentPage, lastPage, currentSchedule, lastSchedule, Success(current), Success(last))
  {
  }

  // ---------------------------------------------------------------------
  // Labels (lines 270-280)
  // ---------------------------------------------------------------------

  datatype Label = FileLabel | ContentLabel | LinkLabel | PageLabel

  function LabelText(l: Label): string
  {
    match l
    case FileLabel => "файл"
    case ContentLabel => "контент"
    case LinkLabel => "ссылка"
    case PageLabel => "страница"
  }

  /** The order in which the labels are appended. */
  const LabelOrder: seq<Label> := [FileLabel] + ([ContentLabel] + ([LinkLabel] + [PageLabel]))

  lemma LabelOrderHoldsAll()
    ensures forall l :: l in LabelOrder
  {
    forall l: Label
      ensures l in LabelOrder
    {
      assert LabelOrder[Rank(l)] == l;
    }
  }

  /** Position of a label in the report. */
  function Rank(l: Label): nat
  {
    match l
    case FileLabel => 0
    case ContentLabel => 1
    case LinkLabel => 2
    case PageLabel => 3
  }

  /**
   * When each label is reported: a new link is subsumed by a new file, and
   * "page" is reported only when nothing more specific explains the change.
   */
  predicate Reported(f: Flags, l: Label)
  {
    match l
    case FileLabel => f.schedule
    case ContentLabel => f.content
    case LinkLabel => f.link && !f.schedule
    case PageLabel => f.page && !(f.content || (f.link && !f.schedule))
  }

  /** The labels of `order` that `f` reports, in order. */
  function Select(order: seq<Label>, f: Flags): (r: seq<Label>)
    ensures |r| <= |order|
    ensures forall l :: l in r <==> l in order && Reported(f, l)
  {
    if order == [] then []
    else if Reported(f, order[0]) then [order[0]] + Select(order[1..], f)
    else Select(order[1..], f)
  }

  /** The labels of lines 270-279, in the order they are appended. */
  function Labels(f: Flags): (r: seq<Label>)
    ensures |r| <= 4
    ensures forall l :: l in r <==> Reported(f, l)
  {
    LabelOrderHoldsAll();
    Select(LabelOrder, f)
  }

  /** The label, when `f` reports it. */
  function Optional(f: Flags, l: Label): seq<Label>
  {
    if Reported(f, l) then [l] else []
  }

  lemma SelectCons(l: Label, rest: seq<Label>, f: Flags)
    ensures Select([l] + rest, f) == Optional(f, l) + Select(rest, f)
  {
    assert ([l] + rest)[0] == l && ([l] + rest)[1..] == rest;
  }

  /** `Labels` written out label by label. */
  lemma LabelsSpelledOut(f: Flags)
    ensures Labels(f) == Optional(f, FileLabel) + Optional(f, ContentLabel)
                       + Optional(f, LinkLabel) + Optional(f, PageLabel)
  {
    SelectCons(PageLabel, [], f);
    assert [PageLabel] + [] == [PageLabel];
    SelectCons(LinkLabel, [PageLabel], f);
    SelectCons(ContentLabel, [LinkLabel] + [PageLabel], f);
    SelectCons(FileLabel, [ContentLabel] + ([LinkLabel] + [PageLabel]), f);
    var o1, o2, o3, o4 := Optional(f, FileLabel), Optional(f, ContentLabel), Optional(f, LinkLabel), Optional(f, PageLabel);
    assert o4 + [] == o4;
    ConcatAssoc(o1, o2, o3 + o4);
    ConcatAssoc(o1 + o2, o3, o4);
  }

  function Texts(labels: seq<Label>): (r: seq<string>)
    ensures |r| == |labels|
    ensures forall i :: 0 <= i < |labels| ==> r[i] == LabelText(labels[i])
  {
    if labels == [] then [] else [LabelText(labels[0])] + Texts(labels[1..])
  }

  lemma {:induction false} TextsConcat(a: seq<Label>, b: seq<Label>)
    ensures Texts(a + b) == Texts(a) + Texts(b)
  {
    if a == [] {
      assert a + b == b;
    } else {
      assert (a + b)[1..] == a[1..] + b;
      TextsConcat(a[1..], b);
    }
  }

  /** Lines 270-279: the list built by successive appends is the reported labels, in order. */
  method ChangeList(f: Flags) returns (changes: seq<string>)
    ensures changes == Texts(Labels(f))
  {
    changes := [];
    if f.schedule {
      changes := changes + ["файл"];
    }
    assert changes == Texts(Optional(f, FileLabel));
    if f.content {
      changes := changes + ["контент"];
    }
    TextsConcat(Optional(f, FileLabel), Optional(f, ContentLabel));
    assert changes == Texts(Optional(f, FileLabel) + Optional(f, ContentLabel));
    if f.link && !f.schedule {
      changes := changes + ["ссылка"];
    }
    TextsConcat(Optional(f, FileLabel) + Optional(f, ContentLabel), Optional(f, LinkLabel));
    assert changes == Texts(Optional(f, FileLabel) + Optional(f, ContentLabel) + Optional(f, LinkLabel));
    if f.page && !(f.content || (f.link && !f.schedule)) {
      changes := changes + ["страница"];
    }
    TextsConcat(Optional(f, FileLabel) + Optional(f, ContentLabel) + Optional(f, LinkLabel), Optional(f, PageLabel));
    LabelsSpelledOut(f);
  }

  /** A label is listed exactly when `Reported` says so. */
  lemma LabelsMembership(f: Flags, l: Label)
    ensures l in Labels(f) <==> Reported(f, l)
  {
    assert l in LabelOrder by {
      assert LabelOrder[Rank(l)] == l;
    }
  }

  /** Labels appear in append order, so no label appears twice. */
  lemma {:induction false} SelectOrdered(order: seq<Label>, f: Flags)
    requires forall i, j :: 0 <= i < j < |order| ==> Rank(order[i]) < Rank(order[j])
    ensures forall i, j :: 0 <= i < j < |Select(order, f)| ==>
      Rank(Select(order, f)[i]) < Rank(Select(order, f)[j])
  {
    if order != [] {
      var rest := Select(order[1..], f);
      SelectOrdered(order[1..], f);
      assert forall l :: l in rest ==> l in order[1..];
      forall l | l in rest
        ensures Rank(order[0]) < Rank(l)
      {
        var k :| 0 <= k < |order[1..]| && order[1..][k] == l;
        assert order[k + 1] == l;
      }
    }
  }

  lemma LabelsOrdered(f: Flags)
    ensures forall i, j :: 0 <= i < j < |Labels(f)| ==> Rank(Labels(f)[i]) < Rank(Labels(f)[j])
    ensures forall i, j :: 0 <= i < j < |Labels(f)| ==> Labels(f)[i] != Labels(f)[j]
  {
    SelectOrdered(LabelOrder, f);
  }

  /** "Page" and the explanations it stands in for are never reported together. */
  lemma PageLabelExcludesOthers(f: Flags)
    ensures PageLabel in Labels(f) ==> ContentLabel !in Labels(f) && LinkLabel !in Labels(f)
    ensures f.page && ContentLabel !in Labels(f) && LinkLabel !in Labels(f) ==> PageLabel in Labels(f)
  {
    LabelsMembership(f, PageLabel);
    LabelsMembership(f, ContentLabel);
    LabelsMembership(f, LinkLabel);
  }

  /** Every report carries at least one label. */
  lemma ReportIsLabelled(lastPage: Bytes, currentPage: Bytes, lastSchedule: Bytes, currentSchedule: Bytes,
                         last: Result<Observation, DateTimeError>, current: Result<Observation, DateTimeError>)
    requires Classify(lastPage, currentPage, lastSchedule, currentSchedule, last, current).Success?
    requires Classify(lastPage, currentPage, lastSchedule, currentSchedule, last, current).value.Report?
    ensures Labels(Classify(lastPage, currentPage, lastSchedule, currentSchedule, last, current).value.flags) != []
  {
    var f := Classify(lastPage, currentPage, lastSchedule, currentSchedule, last, current).value.flags;
    if f.schedule {
      LabelsMembership(f, FileLabel);
    } else if f.content {
      LabelsMembership(f, ContentLabel);
    } else if f.link {
      LabelsMembership(f, LinkLabel);
    } else {
      LabelsMembership(f, PageLabel);
    }
  }

  /**
   * A new schedule file and a new link on a changed page: the link is
   * folded into the file, but it no longer masks the page, so both
   * "file" and "page" are reported.
   */
  lemma FileAndLinkStillReportPage()
    ensures Texts(Labels(Flags(true, false, false, true, true))) == ["файл", "страница"]
  {
    LabelsSpelledOut(Flags(true, false, false, true, true));
  }

  /** A new schedule file behind an unchanged page is reported as "file" alone. */
  lemma FileOnly()
    ensures Texts(Labels(Flags(false, false, false, false, true))) == ["файл"]
  {
    LabelsSpelledOut(Flags(false, false, false, false, true));
  }

  /** A new link on a changed page is reported as "link" alone. */
  lemma LinkSubsumesPage()
    ensures Texts(Labels(Flags(true, false, false, true, false))) == ["ссылка"]
  {
    LabelsSpelledOut(Flags(true, false, false, true, false));
  }

  /** A page change nothing else explains is reported as "page". */
  lemma PageOnly()
    ensures Texts(Labels(Flags(true, false, true, false, false))) == ["страница"]
  {
    LabelsSpelledOut(Flags(true, false, true, false, false));
  }

  // ---------------------------------------------------------------------
  // Subject and summary (lines 280-298)
  // ---------------------------------------------------------------------

  /** `', '.join(changes)`. */
  function ChangesText(f: Flags): string
  {
    Join(Texts(Labels(f)), ", ")
  }

  function Subject(f: Flags): (r: string)
    ensures HasPrefix(r, "Изменения в расписании (")
    ensures r[|r| - 1] == ')'
    ensures r[|"Изменения в расписании ("|..|r| - 1] == ChangesText(f)
  {
    "Изменения в расписании (" + ChangesText(f) + ")"
  }

  /** `s.replace(pat, rep)`: left to right, non-overlapping. */
  function Replace(s: string, pat: string, rep: string): string
    requires |pat| > 0
    decreases |s|
  {
    if |s| < |pat| then s
    else if s[..|pat|] == pat then rep + Replace(s[|pat|..], pat, rep)
    else [s[0]] + Replace(s[1..], pat, rep)
  }

  lemma {:induction false} ReplaceSkips(p: string, rest: string, pat: string, rep: string)
    requires |pat| > 0 && pat[0] !in p
    ensures Replace(p + rest, pat, rep) == p + Replace(rest, pat, rep)
    decreases |p|
  {
    if p != [] {
      var s := p + rest;
      assert s[0] == p[0] != pat[0];
      if |s| >= |pat| {
        assert s[..|pat|] != pat by { assert s[..|pat|][0] == s[0]; }
        assert s[1..] == p[1..] + rest;
        ReplaceSkips(p[1..], rest, pat, rep);
        assert [p[0]] + p[1..] == p;
        calc {
          Replace(s, pat, rep);
          [p[0]] + Replace(p[1..] + rest, pat, rep);
          [p[0]] + (p[1..] + Replace(rest, pat, rep));
          { assert [p[0]] + (p[1..] + Replace(rest, pat, rep)) == ([p[0]] + p[1..]) + Replace(rest, pat, rep); }
          p + Replace(rest, pat, rep);
        }
      } else {
        assert |rest| < |pat|;
        assert Replace(rest, pat, rep) == rest;
      }
    } else {
      assert p + rest == rest;
    }
  }

  lemma ReplaceAtPattern(rest: string, pat: string, rep: string)
    requires |pat| > 0
    ensures Replace(pat + rest, pat, rep) == rep + Replace(rest, pat, rep)
  {
    var s := pat + rest;
    assert s[..|pat|] == pat;
    assert s[|pat|..] == rest;
  }

  /** Replacing the separator of a join whose parts cannot hold it re-joins with the replacement. */
  lemma {:induction false} ReplaceJoin(parts: seq<string>, sep: string, rep: string)
    requires |sep| > 0
    requires forall i :: 0 <= i < |parts| ==> sep[0] !in parts[i]
    ensures Replace(Join(parts, sep), sep, rep) == Join(parts, rep)
    decreases |parts|
  {
    if |parts| == 1 {
      ReplaceSkips(parts[0], "", sep, rep);
      assert parts[0] + "" == parts[0];
    } else if |parts| > 1 {
      var tail := Join(parts[1..], sep);
      calc {
        Replace(Join(parts, sep), sep, rep);
        { assert Join(parts, sep) == parts[0] + (sep + tail); }
        Replace(parts[0] + (sep + tail), sep, rep);
        { ReplaceSkips(parts[0], sep + tail, sep, rep); }
        parts[0] + Replace(sep + tail, sep, rep);
        { ReplaceAtPattern(tail, sep, rep); }
        parts[0] + (rep + Replace(tail, sep, rep));
        { ReplaceJoin(parts[1..], sep, rep); }
        parts[0] + (rep + Join(parts[1..], rep));
      }
    }
  }

  /**
   * Line 285: the summary wraps the joined list once in bold tags and
   * replaces each separator, so every label ends up bold on its own.
   */
  function BoldChanges(f: Flags): string
  {
    "<b>" + Replace(ChangesText(f), ", ", "</b>, <b>") + "</b>"
  }

  lemma BoldChangesWrapsEachLabel(f: Flags)
    ensures BoldChanges(f) == "<b>" + Join(Texts(Labels(f)), "</b>, <b>") + "</b>"
  {
    var texts := Texts(Labels(f));
    forall i | 0 <= i < |texts|
      ensures ',' !in texts[i]
    {
      match Labels(f)[i]
      case FileLabel =>
      case ContentLabel =>
      case LinkLabel =>
      case PageLabel =>
    }
    ReplaceJoin(texts, ", ", "</b>, <b>");
  }

  /** Module switches (lines 42-43). */
  const SendFileLink: bool := true
  const SendDatetime: bool := false

  /** Line 292: bold file link when the file or its link changed. */
  predicate FileLinkBold(f: Flags)
  {
    f.schedule || f.link
  }

  /** `<a href="{0}">{0}</a>` (lines 295 and 301). */
  function Anchor(target: string): string
  {
    "<a href=\"" + target + "\">" + target + "</a>"
  }

  const FileLineHead: string := "<p>Файл расписания: "

  /** Lines 291-296: the file-link line, whose link is rendered with `format`. */
  function FileLine(f: Flags, link: Option<string>): string
  {
    var (open, close) := if FileLinkBold(f) then ("<b>", "</b>") else ("", "");
    FileLineHead + open + Anchor(ValueText(link)) + close + "</p>\n"
  }

  /** The link on the file line is set in bold exactly when the file or the link changed. */
  lemma FileLineEmphasis(f: Flags, link: Option<string>)
    ensures f.schedule || f.link <==>
      FileLine(f, link) == FileLineHead + "<b>" + Anchor(ValueText(link)) + "</b>" + "</p>\n"
    ensures !(f.schedule || f.link) <==>
      FileLine(f, link) == FileLineHead + Anchor(ValueText(link)) + "</p>\n"
  {
    var a := Anchor(ValueText(link));
    var bold := FileLineHead + "<b>" + a + "</b>" + "</p>\n";
    var plain := FileLineHead + a + "</p>\n";
    assert |bold| == |plain| + 7;
    if !FileLinkBold(f) {
      assert FileLineHead + "" + a + "" == FileLineHead + a;
    }
  }

  /** Line 290: with the switch on, the file line is always present. */
  predicate ShowsFileLine(f: Flags)
  {
    SendFileLink || f.link || f.schedule
  }

  /** Line 298: the edit-time line. */
  predicate ShowsDatetimeLine(f: Flags)
  {
    SendDatetime || f.datetime
  }

  lemma SummaryLines(f: Flags)
    ensures ShowsFileLine(f)
    ensures ShowsDatetimeLine(f) <==> f.datetime
  {
  }
}
