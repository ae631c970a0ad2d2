# Schedule change checker: the change-detection core

`itmm_schedule_checker.py` watches the schedule page of the ITMM site. On
each run it downloads the page and the schedule file the page links to,
compares them with the previous snapshot, and mails a report when
something changed (on the first run, a start-up notice). This
project models the part that decides what changed:

- **The schedule page parser** (`SchedulePageParser`). It follows a
  tokenizer's callbacks through the page.
  - It tracks the content region: the `div` whose class is the configured
    style, together with all its nested `div`s.
  - It rebuilds the region's markup (`html_content`) and gathers its text
    (`content`).
  - Data inside the region that mentions "расписание магистров" (the
    masters' schedule) opens the master paragraph.
  - Inside that paragraph it takes the schedule file's link from an
    `<a href>`, and the last edit's date and time from the chunks, using
    two regular expressions.
  - `feed` combines the date and time into a `datetime`.
- **The markup-to-text parser** (`HTMLtoPlainParser`). It collects the
  character data of a fragment and hands it back.
- **Change classification.** Page bytes, file bytes, link, content and
  datetime give five flags. A precedence rule turns the flags into the
  ordered labels `файл`, `контент`, `ссылка`, `страница`. The labels are
  then joined into the subject and the summary line.
- **Diff post-processing.** The `+ ` and `- ` lines of a line diff are
  picked out and assembled, under two titles, into a plain-text diff and
  an HTML diff. In the plain-text diff the removed section is always
  empty: see "## Findings".

## Layout

Modules:

- `Wrappers`: Option and Result.
- `Text`: substring search, lower-casing, `split`, `join`, `int()` on digits.
- `Calendar`: `date`, `time` and `datetime.combine` with Python's range
  checks. Errors are returned as values.
- `Markup`: the tokenizer's events and how they render back to markup.
- `Patterns`: the two regular expressions and `re.search` over them.
- `ScheduleState`: the page parser's fields as a value, one transition
  function per callback, and `Run`/`FeedResult` for a whole page.
- `SchedulePage`: class `SchedulePageParser`. Each handler method changes
  the fields in place and is proved to perform exactly the transition of
  `ScheduleState`.
- `ScheduleProperties`: what runs of the parser guarantee.
- `ScheduleExamples`: concrete chunks and what is read from them.
- `PlainText`: class `HtmlToPlainParser`.
- `Changes`: flags, labels, subject and summary line.
- `DiffReport`: the diff-line filters and the two diffs.

A page is given as the sequence of callback events the tokenizer
produces (`StartTag(tag, attrs)`, `Data(text)`, `EndTag(tag)`). An error
raised inside `handle_data` is returned as a value and aborts `feed`. The
fields updated before the raise keep their new values.

## Behaviour worth knowing

- **Every chunk's first match is used.** Each chunk of the master
  paragraph is searched with `re.search` (lines 104 and 109), which gives
  the first match in that chunk. Each chunk with a match overwrites the
  value before it, so the date and the time come from the last *matching
  chunk*, not from the last match in the paragraph. Tags inside the
  paragraph do not disturb this (`ScheduleProperties.MasterParagraphKeepsLastMatch`).
- **The no-style case collects nothing.** Line 99 tests the module-level
  `content_div_style`, not the instance's style. Without an instance style
  the region never opens, so nothing is collected and `feed` always fails
  (`ScheduleProperties.NoStyleIsInert`, `ScheduleProperties.FeedWithoutStyle`).
- **File, link and page all changed.** Lines 271-279 then list
  `файл, страница`: a link change masks the page label only when the file
  did not change (`Changes.FileAndLinkStillReportPage`).
- **A year-less date stops the feed.** A date match without a year, such
  as `19.10`, becomes a 2-tuple. `date(*(10, 19))` then raises for its
  arity, which aborts `feed` (`ScheduleExamples.SplitDateChunk`).
- **The `href` loop has no `break`.** The last `href` of the tag wins.
- **A page without a schedule link stops the run.** When the current
  page's link is None or "", `urlopen` raises at line 209 or line 224,
  before any label is chosen (`Changes.Classify`).
- **Python version.** The constructors pass `strict=False` to
  `HTMLParser` (lines 69 and 137). Python accepts that argument only up
  to version 3.4, so the model follows Python 3.4. There,
  `convert_charrefs` is off by default. Character and entity references
  therefore go to `handle_charref` and `handle_entityref`, which neither
  class overrides, and they add no text.

## Model

| member | source | states |
|---|---|---|
| Calendar.DaysInMonth | itmm_schedule_checker.py:108 | month lengths are 28-31, and February has 29 days exactly in leap years |
| Calendar.MakeDate | itmm_schedule_checker.py:108 | `date(*args)`: any arity but 3 fails; with 3 values it succeeds exactly when they form a valid date in years 1-9999, and yields that date |
| Calendar.MakeTime | itmm_schedule_checker.py:113 | `time(h, m)` succeeds exactly when 0 ≤ h < 24 and 0 ≤ m < 60, and yields that time |
| Calendar.Combine | itmm_schedule_checker.py:130 | `datetime.combine` fails when the date or the time is None (the date is checked first), and otherwise joins them |
| Text.Contains | itmm_schedule_checker.py:101 | `needle in hay`: the needle occurs at some position of the text (definition; `ScheduleState.OnData` and `ScheduleState.LoweredDataKeepsTrigger` state what it decides) |
| Text.DecimalValue | itmm_schedule_checker.py:106-107 | `int()` of a digit string, read left to right in base 10; a digit string is never negative (its values are pinned by `Text.TwoDigitValue` and `Text.FourDigitValue`) |
| Text.DecimalValues | itmm_schedule_checker.py:106-112 | the tuple of `int()` of each field: one value per field, in order |
| Text.Reversed | itmm_schedule_checker.py:108 | `reversed`: same length, the i-th element is the i-th from the end |
| Text.Split | itmm_schedule_checker.py:107 | `split` on one character never yields an empty list |
| Text.SplitWithoutSeparator | itmm_schedule_checker.py:107 | a string without the separator splits into itself alone |
| Text.SplitAtFirstSeparator | itmm_schedule_checker.py:107 | splitting at a separator that the first part lacks yields that part, then the split of the rest |
| Text.SplitTwo | itmm_schedule_checker.py:112 | a text with one separator between two separator-free parts splits into exactly those two parts |
| Text.SplitThree | itmm_schedule_checker.py:107 | a text with two separators between three separator-free parts splits into exactly those three parts |
| Text.Concat | itmm_schedule_checker.py:256 | `''.join(parts)`: the parts one after another (definition; `Text.JoinWithEmptySeparator` ties it to `Join`) |
| Text.Join | itmm_schedule_checker.py:280 | `sep.join(parts)`: the parts with the separator between neighbours (definition; its length is `Text.JoinLength`, its rewriting `Changes.ReplaceJoin`) |
| Text.TwoDigitValue | itmm_schedule_checker.py:106-107 | `int()` of two digits is their decimal value |
| Text.FourDigitValue | itmm_schedule_checker.py:106-107 | `int()` of four digits is their decimal value |
| Text.LowerChar | itmm_schedule_checker.py:101 | capital Latin letters and А..Я move 32 code points on to their own small letters, Ѐ..Џ move 80 on to ѐ..џ, and every other character is left as it is |
| Text.Lower | itmm_schedule_checker.py:101 | `lower()` keeps the length and lower-cases each character on its own |
| Text.JoinWithEmptySeparator | itmm_schedule_checker.py:256 | `''.join` is the concatenation of the parts |
| Text.JoinLength | itmm_schedule_checker.py:280 | a join is as long as its parts plus one separator between each neighbouring pair |
| Patterns.DayMonthAt | itmm_schedule_checker.py:67 | the day-and-month part of the date pattern: a result is the longest day and month text starting there; no result means none starts there |
| Patterns.DateTextAt | itmm_schedule_checker.py:67 | a date text is a day and month text, optionally followed by a five-character year part |
| Patterns.DateMatchAtIsLongest | itmm_schedule_checker.py:67 | the date pattern's result at a position matches the pattern, no longer text there does, and no result means nothing matches there |
| Patterns.TimeMatchAt | itmm_schedule_checker.py:68 | the time pattern's result at a position matches it, no longer text there does, and no result means nothing matches there |
| Patterns.MatchAt | itmm_schedule_checker.py:67-68 | at a position, the engine's greedy result matches the pattern, and no longer text there does; no result means nothing matches there |
| Patterns.DateMatchAt | itmm_schedule_checker.py:67 | the greedy date pattern at a position: the day and month, then the year part when one follows (definition; `Patterns.DateMatchAtIsLongest` states its value) |
| Patterns.SearchFrom | itmm_schedule_checker.py:104-109 | `re.search`: the span found matches, no earlier start has any match, and no longer match begins at its start; no result means no match anywhere |
| Patterns.Search | itmm_schedule_checker.py:104-109 | `re.search` over the whole chunk: the span found matches, no earlier start has any match, no longer match begins at its start, and no result means no match anywhere |
| Markup.ValueText | itmm_schedule_checker.py:77 | `format` of an attribute value: the value itself, or `None` for a value-less attribute (definition; `SchedulePage.FormatAttrs` shows its use) |
| Markup.AttrText | itmm_schedule_checker.py:77 | one attribute as ` name="value"` (definition; `SchedulePage.FormatAttrs` states the loop builds these) |
| Markup.AttrsText | itmm_schedule_checker.py:75-77 | every attribute as ` name="value"`, in order (definition; `SchedulePage.FormatAttrs` states its value, `Markup.AttrsTextConcat` its concatenation) |
| Markup.OpenTagText | itmm_schedule_checker.py:78 | `<tag attrs>` (definition; `DiffReport.TitleTagsSpelled` states its value for the title tags, `ScheduleProperties.RunInsideRegionMarkup` its use) |
| Markup.CloseTagText | itmm_schedule_checker.py:118 | `</tag>` (definition; `DiffReport.TitleTagsSpelled` states its value for the title tags, `ScheduleProperties.RegionClosesAtMatchingEnd` its use) |
| ScheduleState.TriggerIsLowerCase | itmm_schedule_checker.py:101 | the trigger phrase is its own lower case, so comparing it with lower-cased data is a case-insensitive search |
| ScheduleState.LoweredDataKeepsTrigger | itmm_schedule_checker.py:101 | a chunk that holds the phrase as written still holds it after `lower()` |
| ScheduleState.Initial | itmm_schedule_checker.py:57-66 | the fields `__init__` sets: the style, both flags off, empty texts, no link, date or time (definition; `SchedulePage.SchedulePageParser.constructor` and `ScheduleProperties.FeedWithoutStyle` state what follows from it) |
| ScheduleState.HasClass | itmm_schedule_checker.py:82-87 | some attribute is `class` with the style as its value (definition; `SchedulePage.FindClass` proves the loop decides it, `ScheduleState.OnStartTag` that it opens the region) |
| ScheduleState.LastHref | itmm_schedule_checker.py:91-93 | without an `href` the link is unchanged; otherwise it is the value of the last `href` attribute |
| ScheduleState.DateTextSplit | itmm_schedule_checker.py:107 | splitting a date match on '.' yields its day, month and year fields (two fields when there is no year) |
| ScheduleState.YearFieldRange | itmm_schedule_checker.py:67 | a date match with a year has a year value between 2010 and 2019 |
| ScheduleState.DateFromText | itmm_schedule_checker.py:106-108 | a match without a year fails for its arity; otherwise the result is `date(year, month, day)` of the fields; a date obtained has a year in 2010-2019 |
| ScheduleState.TimeTextSplit | itmm_schedule_checker.py:111-112 | splitting a time match on ':' yields its hour and minute fields |
| ScheduleState.TimeFromText | itmm_schedule_checker.py:111-113 | a time match fails exactly when its hour is 24 or more, and otherwise is read as that hour and minute |
| ScheduleState.ChunkDate | itmm_schedule_checker.py:104-108 | a chunk has no date result exactly when no part of it matches the date pattern; an accepted date has a year in 2010-2019; a rejection is for arity or range |
| ScheduleState.ChunkTime | itmm_schedule_checker.py:109-113 | a chunk has no time result exactly when no part of it matches the time pattern; a rejection is for range |
| ScheduleState.OnStartTag | itmm_schedule_checker.py:71-93 | inside the region with a style, the tag is copied; the region opens exactly on a `div` of the style's class, at level 0; a nested `div` raises the level; a non-empty link is kept; an `a` tag in the master paragraph with a falsy link sets the link to its last `href`, and no other tag changes it |
| ScheduleState.OnData | itmm_schedule_checker.py:95-113 | outside the region nothing changes; inside it the chunk is appended to both texts; the master paragraph opens exactly when the lower-cased chunk contains the trigger; it raises exactly when, in the paragraph, the chunk's date or time is rejected (the date first), and an accepted date stays stored even when the time then raises |
| ScheduleState.ReadChunk | itmm_schedule_checker.py:103-113 | only the date and the time change; it raises exactly when the date or the time is rejected; a rejected date raises before the time is read; an accepted date is stored even when the time then raises |
| ScheduleState.WithChunkTime | itmm_schedule_checker.py:109-113 | only the time changes; it raises exactly when the time is rejected; an accepted time is stored |
| ScheduleState.OnEndTag | itmm_schedule_checker.py:115-126 | inside the region with a style, the close tag is copied; a `div` at level 0 closes the region, a deeper one lowers the level; `</p>` ends the master paragraph |
| ScheduleState.Step | itmm_schedule_checker.py:71-126 | one callback keeps the style, and only the data callback can raise or change the text, the date and the time |
| ScheduleState.Run | itmm_schedule_checker.py:128-129 | the tokenizer's callbacks in order keep the style, stop at the first error, and never raise without a data chunk |
| ScheduleState.FeedResult | itmm_schedule_checker.py:128-130 | `feed` succeeds exactly when no callback raised and both date and time were found, giving their combination; a raised error is passed on |
| SchedulePage.SchedulePageParser.constructor | itmm_schedule_checker.py:57-68 | a new parser has the initial state with the given style, and no datetime |
| SchedulePage.SchedulePageParser.HandleStartTag | itmm_schedule_checker.py:71-93 | updates the fields in place exactly as `OnStartTag` |
| SchedulePage.SchedulePageParser.HandleData | itmm_schedule_checker.py:95-113 | updates the fields in place exactly as `OnData`, and returns the error it raises |
| SchedulePage.SchedulePageParser.ReadChunk | itmm_schedule_checker.py:103-113 | the date-then-time reading of a master-paragraph chunk, in place |
| SchedulePage.SchedulePageParser.HandleEndTag | itmm_schedule_checker.py:115-126 | updates the fields in place exactly as `OnEndTag` |
| SchedulePage.SchedulePageParser.Feed | itmm_schedule_checker.py:128-130 | replays the events through the handlers, ends in the state `Run` computes, returns `FeedResult`, and sets `datetime` only on success |
| SchedulePage.FormatAttrs | itmm_schedule_checker.py:75-77 | the attribute string is every attribute rendered as ` name="value"`, in order |
| SchedulePage.FindClass | itmm_schedule_checker.py:82-87 | the loop finds a match exactly when some attribute is `class` with the style as its value |
| SchedulePage.ScanHref | itmm_schedule_checker.py:91-93 | the loop leaves the link that `LastHref` describes |
| ScheduleProperties.RunConcat | itmm_schedule_checker.py:128-129 | feeding two event sequences in turn is feeding their concatenation, stopping at the first error |
| ScheduleProperties.RunKeepsConsistent | itmm_schedule_checker.py:80-124 | the level is never negative, it is 0 outside the region, and the region is open only with a style; every run keeps this |
| ScheduleProperties.ParserLevelNeverNegative | itmm_schedule_checker.py:80-124 | from a new parser the nesting level never goes negative, on any page |
| ScheduleProperties.StaysNestedTail | itmm_schedule_checker.py:89-122 | a nesting-safe sequence stays nesting-safe after its first event |
| ScheduleProperties.FirstStepInsideRegion | itmm_schedule_checker.py:71-126 | the first event of a nesting-safe run inside the region keeps the region open, shifts the level by its `div` balance, appends its markup and text, and the rest of the run continues from there |
| ScheduleProperties.RunInsideRegion | itmm_schedule_checker.py:80-124 | while no prefix closes more `div`s than are open, the region stays open and the level is the initial one plus opened minus closed `div`s |
| ScheduleProperties.RunInsideRegionMarkup | itmm_schedule_checker.py:74-118 | inside the region, `html_content` grows by exactly the markup of the events, in order |
| ScheduleProperties.RunInsideRegionContent | itmm_schedule_checker.py:99-100 | inside the region, `content` grows by exactly the text of the events, in order |
| ScheduleProperties.StepInsideRegion | itmm_schedule_checker.py:71-126 | one event inside the region keeps it open, shifts the level by its `div` balance, and appends its markup and text |
| ScheduleProperties.RegionClosesAtMatchingEnd | itmm_schedule_checker.py:118-124 | the `</div>` that balances the region closes it, and is itself copied into `html_content` |
| ScheduleProperties.CloseAtLevelZero | itmm_schedule_checker.py:118-124 | a `</div>` at level 0 inside the region closes it without error and is copied into `html_content` |
| ScheduleProperties.RunOutsideRegion | itmm_schedule_checker.py:96-116 | outside the region, with no tag that opens it, neither text, nor the date, nor the time changes, and nothing raises |
| ScheduleProperties.NoStyleIsInert | itmm_schedule_checker.py:72-116 | with no style and outside the master paragraph, no page changes the parser at all |
| ScheduleProperties.FeedWithoutStyle | itmm_schedule_checker.py:99-130 | a parser without a style stays in its initial state, and `feed` fails because the date is None |
| ScheduleProperties.LinkStable | itmm_schedule_checker.py:90 | once the link is non-empty it never changes |
| ScheduleProperties.MasterParagraphKeepsLastMatch | itmm_schedule_checker.py:103-126 | over any events inside the region and without `</p>`, the paragraph stays open, and the date and the time are folded event by event, each chunk's accepted first match replacing them |
| ScheduleProperties.FirstStepInParagraph | itmm_schedule_checker.py:95-126 | one event of the master paragraph other than `</p>` keeps the region and the paragraph open and updates the date and the time as its chunk's accepted match says |
| ScheduleProperties.UndatedEventsKeepDate | itmm_schedule_checker.py:103-108 | events without a chunk whose date is accepted leave the date as it was |
| ScheduleProperties.LastDatedChunkWins | itmm_schedule_checker.py:103-108 | the date after the events is that of the last chunk whose date was accepted |
| ScheduleExamples.FullDateChunk | itmm_schedule_checker.py:104-108 | the chunk `19.10.2016` is read as 19 October 2016 |
| ScheduleExamples.TimeChunk | itmm_schedule_checker.py:109-113 | the chunk `17:20` is read as 17:20 |
| ScheduleExamples.SplitDateChunk | itmm_schedule_checker.py:104-108 | the chunk `10.2016 г.` first matches `10.2`, which raises for its arity |
| PlainText.HtmlToPlainParser.constructor | itmm_schedule_checker.py:135-137 | a new parser has an empty buffer |
| PlainText.HtmlToPlainParser.HandleData | itmm_schedule_checker.py:139-140 | the chunk is appended to the buffer |
| PlainText.HtmlToPlainParser.Feed | itmm_schedule_checker.py:142-146 | returns the buffer followed by the text of every event, in order, and leaves the buffer empty |
| PlainText.FeedTwice | itmm_schedule_checker.py:142-146 | a parser that is reused returns just each fragment's own text |
| Changes.Observe | itmm_schedule_checker.py:204-223 | parsing a page either passes on `feed`'s error or gives the parser's content, link and datetime |
| Changes.Classify | itmm_schedule_checker.py:197-233 | an error on the current page aborts first; with both feeds done, a current link that is None or "" aborts at the download; an unchanged page ends silently exactly when the file is unchanged too; an error on the stored page aborts only when the pages differ; each flag of a report is its own comparison, and a report has a page or a file change |
| Changes.IdenticalInputsAreQuiet | itmm_schedule_checker.py:208-213 | identical snapshots produce no report; without a link the download aborts the run instead |
| Changes.ClassifySymmetric | itmm_schedule_checker.py:208-233 | when both pages carry a link, exchanging the previous and the current snapshot gives the same decision |
| Changes.Select | itmm_schedule_checker.py:270-279 | the filtered labels are exactly the reported labels of the order |
| Changes.Reported | itmm_schedule_checker.py:271-279 | the four rules of lines 271-279: file when the file changed, content when the content changed, link when the link but not the file changed, page when the page changed and neither content nor an unmasked link explains it (definition; `Changes.LabelsMembership` ties the list to it) |
| Changes.Labels | itmm_schedule_checker.py:270-279 | at most four labels, and a label is listed exactly when its rule holds |
| Changes.SelectCons | itmm_schedule_checker.py:270-279 | filtering an order that starts with a label gives that label, when reported, in front of the filtered rest |
| Changes.LabelsSpelledOut | itmm_schedule_checker.py:270-279 | the label list is `файл`, `контент`, `ссылка`, `страница`, in that order, each present when its rule holds |
| Changes.LabelText | itmm_schedule_checker.py:272-279 | the four label strings `файл`, `контент`, `ссылка`, `страница` (definition; `Changes.LabelsSpelledOut` states the list built from them) |
| Changes.Texts | itmm_schedule_checker.py:272-279 | the appended strings are the labels' texts, one per label, in order |
| Changes.TextsConcat | itmm_schedule_checker.py:270-279 | the texts of two label lists in turn are the texts of their concatenation |
| Changes.ChangeList | itmm_schedule_checker.py:270-279 | the list built by successive appends is the texts of the reported labels, in order |
| Changes.LabelsMembership | itmm_schedule_checker.py:270-279 | a label is listed exactly when its rule holds |
| Changes.SelectOrdered | itmm_schedule_checker.py:270-279 | filtering keeps the order of the label order |
| Changes.LabelsOrdered | itmm_schedule_checker.py:270-279 | labels appear in append order, and none appears twice |
| Changes.PageLabelExcludesOthers | itmm_schedule_checker.py:277-279 | `страница` is never listed with `контент` or `ссылка`, and a changed page without them is always listed |
| Changes.ReportIsLabelled | itmm_schedule_checker.py:270-280 | every report has at least one label |
| Changes.FileAndLinkStillReportPage | itmm_schedule_checker.py:270-279 | new file, new link and changed page give `файл, страница` |
| Changes.FileOnly | itmm_schedule_checker.py:270-279 | a new file behind an unchanged page gives `файл` |
| Changes.LinkSubsumesPage | itmm_schedule_checker.py:270-279 | a new link on a changed page gives `ссылка` alone |
| Changes.PageOnly | itmm_schedule_checker.py:270-279 | a page change nothing else explains gives `страница` |
| Changes.Subject | itmm_schedule_checker.py:280-282 | the subject starts with the fixed prefix, ends with `)`, and holds exactly the joined labels in between |
| Changes.ChangesText | itmm_schedule_checker.py:280 | the label texts joined with ", " (definition; `Changes.Subject` and `Changes.BoldChangesWrapsEachLabel` state what is built from it) |
| Changes.Replace | itmm_schedule_checker.py:285 | `str.replace`, left to right and non-overlapping (definition; stated by `Changes.ReplaceSkips`, `Changes.ReplaceAtPattern`, `Changes.ReplaceJoin`) |
| Changes.BoldChanges | itmm_schedule_checker.py:284-285 | the summary's label list (definition; `Changes.BoldChangesWrapsEachLabel` proves each label bold on its own) |
| Changes.Anchor | itmm_schedule_checker.py:295 | the link as `<a href="link">link</a>` (definition; `Changes.FileLineEmphasis` states the line built around it) |
| Changes.FileLine | itmm_schedule_checker.py:291-296 | the file-link line (definition; `Changes.FileLineEmphasis` proves when its link is bold) |
| Changes.FileLineEmphasis | itmm_schedule_checker.py:290-296 | the link on the file line is in bold exactly when the file or the link changed |
| Changes.ReplaceSkips | itmm_schedule_checker.py:285 | `replace` passes over a prefix that cannot start the pattern |
| Changes.ReplaceAtPattern | itmm_schedule_checker.py:285 | `replace` substitutes a pattern at the front |
| Changes.ReplaceJoin | itmm_schedule_checker.py:280-285 | replacing the separator of a join whose parts cannot contain it re-joins them with the replacement |
| Changes.BoldChangesWrapsEachLabel | itmm_schedule_checker.py:284-286 | the summary line sets each label in bold on its own |
| Changes.SummaryLines | itmm_schedule_checker.py:290-298 | with the switches as set, the file line always appears and the edit-time line appears exactly when the datetime changed |
| DiffReport.Tagged | itmm_schedule_checker.py:253-264 | every kept line is the rest of an input line that carries the tag, and the rest of every tagged line is kept (order: `DiffReport.TaggedConcat`) |
| DiffReport.TaggedConcat | itmm_schedule_checker.py:253-264 | the filter keeps the order across concatenation |
| DiffReport.RenderAll | itmm_schedule_checker.py:252-262 | rendering diff lines keeps their number and order |
| DiffReport.FiltersRecoverTexts | itmm_schedule_checker.py:253-264 | picking `+ ` and `- ` lines out of a rendered diff gives exactly its added and its removed texts, in order |
| DiffReport.NewLines | itmm_schedule_checker.py:253 | exactly the rests of the `+ ` lines are kept, in input order: every kept text is the rest of a `+ ` line, every `+ ` line's rest is kept, and the last line's rest, when tagged, comes after all the others |
| DiffReport.TaggedSnoc | itmm_schedule_checker.py:253-264 | filtering a list is filtering all but its last line and then adding that line's rest when it carries the tag: the comprehension keeps input order |
| DiffReport.OldLines | itmm_schedule_checker.py:254 | exactly the rests of the `- ` lines are kept, in input order: every kept text is the rest of a `- ` line, every `- ` line's rest is kept, and the last line's rest, when tagged, comes after all the others |
| DiffReport.ContentDiff | itmm_schedule_checker.py:250-258 | the text diff as written, reading line 254 from the spent generator (definition; `DiffReport.ContentDiffDropsRemovedTexts` states its value) |
| DiffReport.ContentDiffListed | itmm_schedule_checker.py:262-264 | the text diff with the comparer's output kept in a list (definition; `DiffReport.DiffsOfTaggedLines` states its value) |
| DiffReport.HtmlDiff | itmm_schedule_checker.py:265-268 | the HTML diff (definition; `DiffReport.DiffsOfTaggedLines` states its value) |
| DiffReport.NewTitleHtml | itmm_schedule_checker.py:245 | the title above the added lines, `<hr><p><b>Обновленное:</b></p>` and a newline (definition; `DiffReport.TitleEventsSpellTitles` states its tokens) |
| DiffReport.OldTitleHtml | itmm_schedule_checker.py:246 | the title above the removed lines, `</br><p><b>Устаревшее:</b></p>` and a newline (definition; `DiffReport.TitleEventsSpellTitles` states its tokens) |
| DiffReport.NewTitleEvents | itmm_schedule_checker.py:245 | the tokenizer's events for the first title (definition; `DiffReport.TitleEventsSpellTitles` states its markup and text) |
| DiffReport.OldTitleEvents | itmm_schedule_checker.py:246 | the tokenizer's events for the second title (definition; `DiffReport.TitleEventsSpellTitles` states its markup and text) |
| DiffReport.TitleEventsSpellTitles | itmm_schedule_checker.py:245-246 | the title tokens render back to the title markup, and their text is the two plain titles |
| DiffReport.TitleSpelled | itmm_schedule_checker.py:245-257 | a tag without text in front of a bold title paragraph renders back to that tag and the paragraph markup, and its text is the title word and a newline |
| DiffReport.ParagraphSpelled | itmm_schedule_checker.py:245-257 | a bold title paragraph renders back to `<p><b>`, the word, `</b></p>` and a newline, and its text is the word and a newline |
| DiffReport.ContentDiffDropsRemovedTexts | itmm_schedule_checker.py:250-258 | as written, the text diff is "Обновленное:", the added texts and "Устаревшее:", and no removed text |
| DiffReport.RemovedLineIsLost | itmm_schedule_checker.py:250-258 | a diff that only removes `x\n` gives a text diff without it, unlike the listed variant |
| DiffReport.DiffsOfTaggedLines | itmm_schedule_checker.py:262-268 | with the comparer's output kept in a list, the text diff lists the added texts under "Обновленное:" and the removed ones under "Устаревшее:"; the HTML diff wraps them in a `div`, the removed ones struck through |

## Findings

| source | as written | input that shows it | evidently intended | confidence | as-written member | corrected member |
|---|---|---|---|---|---|---|
| itmm_schedule_checker.py:252-254 | `content_diff_lns` is the generator `d.compare` returns; the comprehension at line 253 runs it to its end, so the one at line 254 sees no lines and `content_old_lns` is always empty | stored content `x\n`, current content empty: the comparer yields `- x\n`, and the text diff shows nothing under "Устаревшее:" | keep the comparer's output in a list, as line 262 does for the HTML diff, so removed lines are listed | not executed | DiffReport.ContentDiffDropsRemovedTexts | DiffReport.DiffsOfTaggedLines |

`DiffReport.ContentDiff` models lines 250-258 as written, and
`DiffReport.RemovedLineIsLost` gives the concrete input.
`DiffReport.ContentDiffListed` is the intended text diff.

## Left out

- The HTML tokenizer (`HTMLParser`) is not part of this model: a page or
  fragment is given as its callback events. This also leaves out
  character references, self-closing tags (the tokenizer reports them as
  a start and an end tag) and how the text is cut into chunks. The title
  fragments are given as fixed token sequences.
- Network access (`urlopen`), the snapshot files (`get_last`, writing
  pages and schedule files, the working directory), the first-run branch
  and `mail` are I/O. The page and file contents are parameters of
  `Classify`. A link that is not empty but that `urlopen` still cannot
  open counts as a network failure, so it is not modelled.
- UTF-8 decoding of the page is left out: the page bytes are compared as
  bytes, and the parser works on the decoded events.
- `difflib.Differ`'s alignment is left out: the diff is given as its
  tagged output lines.
- `splitlines`, the `url` line, the HTML template, the time stamps
  (`datetime.now`, `strftime`) and the schedule file name
  (`urlparse`, `basename`) are left out.
- The attachment is left out.
- Text.Lower: applies only the ASCII and basic Cyrillic case tables, not
  Unicode's full `lower()`.
- Calendar.MakeTime: takes hour and minute only, since the time pattern
  has no seconds.
- SchedulePage.SchedulePageParser: `div_level` starts at 0 in the
  constructor, where Python creates it only when the region first opens.
  It is read only inside the region, so this does not change behaviour.
- Keyword highlighting and HTML preparation are not in this source, so
  they are not modelled.
