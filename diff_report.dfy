/**
 * Post-processing of the line diff: the added and removed lines are
 * picked out of the comparer's output by their two-character tag and
 * assembled, under fixed titles, into a plain-text and an HTML diff.
 */
module DiffReport {
  import opened Text
  import opened Markup

  /** `[s[2:] for s in lines if s[:2] == tag]` for a two-character tag. */
  function Tagged(lines: seq<string>, tag: string): (r: seq<string>)
    requires |tag| == 2
    ensures |r| <= |lines|
    ensures forall x :: x in r ==>
      exists i :: 0 <= i < |lines| && HasPrefix(lines[i], tag) && x == lines[i][2..]
    ensures forall i :: 0 <= i < |lines| && HasPrefix(lines[i], tag) ==> lines[i][2..] in r
  {
    if lines == [] then []
    else
      var rest := Tagged(lines[1..], tag);
      assert forall x :: x in rest ==>
        exists i :: 1 <= i < |lines| && HasPrefix(lines[i], tag) && x == lines[i][2..] by {
        forall x | x in rest
          ensures exists i :: 1 <= i < |lines| && HasPrefix(lines[i], tag) && x == lines[i][2..]
        {
          var j :| 0 <= j < |lines[1..]| && HasPrefix(lines[1..][j], tag) && x == lines[1..][j][2..];
          assert lines[j + 1] == lines[1..][j];
        }
      }
      assert forall i :: 1 <= i < |lines| && HasPrefix(lines[i], tag) ==> lines[i][2..] in rest by {
        forall i | 1 <= i < |lines| && HasPrefix(lines[i], tag)
          ensures lines[i][2..] in rest
        {
          assert lines[1..][i - 1] == lines[i];
        }
      }
      if HasPrefix(lines[0], tag) then [lines[0][2..]] + rest else rest
  }

  /** The text a single line contributes to the filter: its own text when tagged, else nothing. */
  function TaggedText(line: string, tag: string): seq<string>
    requires |tag| == 2
  {
    if HasPrefix(line, tag) then [line[2..]] else []
  }

  /** Lines 253 and 263: the texts of the added lines. */
  function NewLines(lines: seq<string>): (r: seq<string>)
    ensures forall x :: x in r ==>
      exists i :: 0 <= i < |lines| && HasPrefix(lines[i], "+ ") && x == lines[i][2..]
    ensures forall i :: 0 <= i < |lines| && HasPrefix(lines[i], "+ ") ==> lines[i][2..] in r
    // In order: the last line's text, when tagged, follows those of the lines before it.
    ensures lines != [] ==>
      r == Tagged(lines[..|lines| - 1], "+ ") + TaggedText(lines[|lines| - 1], "+ ")
  {
    if lines == [] then Tagged(lines, "+ ")
    else
      var init, last := lines[..|lines| - 1], lines[|lines| - 1];
      assert lines == init + [last];
      TaggedSnoc(init, last, "+ ");
      Tagged(lines, "+ ")
  }

  /** Lines 254 and 264: the texts of the removed lines. */
  function OldLines(lines: seq<string>): (r: seq<string>)
    ensures forall x :: x in r ==>
      exists i :: 0 <= i < |lines| && HasPrefix(lines[i], "- ") && x == lines[i][2..]
    ensures forall i :: 0 <= i < |lines| && HasPrefix(lines[i], "- ") ==> lines[i][2..] in r
    // In order: the last line's text, when tagged, follows those of the lines before it.
    ensures lines != [] ==>
      r == Tagged(lines[..|lines| - 1], "- ") + TaggedText(lines[|lines| - 1], "- ")
  {
    if lines == [] then Tagged(lines, "- ")
    else
      var init, last := lines[..|lines| - 1], lines[|lines| - 1];
      assert lines == init + [last];
      TaggedSnoc(init, last, "- ");
      Tagged(lines, "- ")
  }

  /** Filtering a list is filtering all but its last line, then that line. */
  lemma TaggedSnoc(init: seq<string>, last: string, tag: string)
    requires |tag| == 2
    ensures Tagged(init + [last], tag) == Tagged(init, tag) + TaggedText(last, tag)
  {
    TaggedConcat(init, [last], tag);
    TaggedSingle(last, tag);
  }

  /** A single line is filtered to its own contribution. */
  lemma TaggedSingle(line: string, tag: string)
    requires |tag| == 2
    ensures Tagged([line], tag) == TaggedText(line, tag)
  {
  }

  /** The filter keeps order across concatenation. */
  lemma {:induction false} TaggedConcat(a: seq<string>, b: seq<string>, tag: string)
    requires |tag| == 2
    ensures Tagged(a + b, tag) == Tagged(a, tag) + Tagged(b, tag)
  {
    if a != [] {
      assert (a + b)[0] == a[0];
      assert (a + b)[1..] == a[1..] + b;
      TaggedConcat(a[1..], b, tag);
    } else {
      assert a + b == b;
    }
  }

  /** One line of the comparer's output, before it is rendered with its tag. */
  datatype DiffLine = Added(text: string) | Removed(text: string) | Common(text: string) | Hint(text: string)

  function Render(d: DiffLine): string
  {
    match d
    case Added(t) => "+ " + t
    case Removed(t) => "- " + t
    case Common(t) => "  " + t
    case Hint(t) => "? " + t
  }

  function RenderAll(ds: seq<DiffLine>): (r: seq<string>)
    ensures |r| == |ds|
    ensures forall i :: 0 <= i < |ds| ==> r[i] == Render(ds[i])
  {
    if ds == [] then [] else [Render(ds[0])] + RenderAll(ds[1..])
  }

  function AddedTexts(ds: seq<DiffLine>): seq<string>
  {
    if ds == [] then []
    else if ds[0].Added? then [ds[0].text] + AddedTexts(ds[1..])
    else AddedTexts(ds[1..])
  }

  function RemovedTexts(ds: seq<DiffLine>): seq<string>
  {
    if ds == [] then []
    else if ds[0].Removed? then [ds[0].text] + RemovedTexts(ds[1..])
    else RemovedTexts(ds[1..])
  }

  /** Picking lines by tag recovers exactly the added and the removed texts, in order. */
  lemma {:induction false} FiltersRecoverTexts(ds: seq<DiffLine>)
    ensures NewLines(RenderAll(ds)) == AddedTexts(ds)
    ensures OldLines(RenderAll(ds)) == RemovedTexts(ds)
  {
    if ds != [] {
      var lines := RenderAll(ds);
      assert lines[1..] == RenderAll(ds[1..]);
      FiltersRecoverTexts(ds[1..]);
      var r := Render(ds[0]);
      assert lines[0] == r;
      match ds[0]
      case Added(t) =>
        assert r[..2] == "+ " && r[2..] == t;
      case Removed(t) =>
        assert r[..2] == "- " && r[2..] == t;
      case Common(t) =>
        assert r[..2] == "  ";
      case Hint(t) =>
        assert r[..2] == "? ";
    }
  }

  /** Line 245: the title above the added lines. */
  function NewTitleHtml(): string
  {
    "<hr>" + "<p><b>" + "Обновленное:" + "</b></p>\n"
  }

  /** Line 246: the title above the removed lines. */
  function OldTitleHtml(): string
  {
    "</br>" + "<p><b>" + "Устаревшее:" + "</b></p>\n"
  }

  /** The tokens of `<p><b>word</b></p>` and the line break after it. */
  function TitleParagraph(word: string): seq<Event>
  {
    [StartTag("p", [])] + ([StartTag("b", [])] + ([Data(word)] + ParagraphClose()))
  }

  /** The tokens of the two titles: a rule or a break, then the title paragraph. */
  function NewTitleEvents(): seq<Event>
  {
    [StartTag("hr", [])] + TitleParagraph("Обновленное:")
  }

  function OldTitleEvents(): seq<Event>
  {
    [EndTag("br")] + TitleParagraph("Устаревшее:")
  }

  /** The token sequences spell out the title markup exactly. */
  lemma TitleEventsSpellTitles()
    ensures MarkupText(NewTitleEvents()) == NewTitleHtml()
    ensures MarkupText(OldTitleEvents()) == OldTitleHtml()
    ensures DataText(NewTitleEvents()) == "Обновленное:\n"
    ensures DataText(OldTitleEvents()) == "Устаревшее:\n"
  {
    TitleTagsSpelled();
    TitleSpelled("<hr>", StartTag("hr", []), "Обновленное:");
    TitleSpelled("</br>", EndTag("br"), "Устаревшее:");
  }

  /** A title: its leading tag, then the paragraph. */
  lemma TitleSpelled(lead: string, first: Event, word: string)
    requires EventMarkup(first) == lead && EventData(first) == ""
    ensures MarkupText([first] + TitleParagraph(word)) == lead + "<p><b>" + word + "</b></p>\n"
    ensures DataText([first] + TitleParagraph(word)) == word + "\n"
  {
    ParagraphSpelled(word);
    ConsSpelled(first, TitleParagraph(word));
    ConcatAssoc(lead, "<p><b>" + word, "</b></p>\n");
    ConcatAssoc(lead, "<p><b>", word);
  }

  /** Rendering one event in front of others. */
  lemma ConsSpelled(e: Event, rest: seq<Event>)
    ensures MarkupText([e] + rest) == EventMarkup(e) + MarkupText(rest)
    ensures DataText([e] + rest) == EventData(e) + DataText(rest)
  {
    var s := [e] + rest;
    assert s[0] == e && s[1..] == rest;
  }

  /** The title tags, rendered. */
  lemma TitleTagsSpelled()
    ensures OpenTagText("hr", []) == "<hr>" && CloseTagText("br") == "</br>"
    ensures OpenTagText("p", []) == "<p>" && OpenTagText("b", []) == "<b>"
    ensures CloseTagText("b") == "</b>" && CloseTagText("p") == "</p>"
    ensures "<p>" + "<b>" == "<p><b>"
    ensures "</b>" + ("</p>" + "\n") == "</b></p>\n"
  {
    assert AttrsText([]) == "";
  }

  /** The closing tokens of a title paragraph. */
  function ParagraphClose(): seq<Event>
  {
    [EndTag("b")] + ([EndTag("p")] + [Data("\n")])
  }

  lemma ParagraphCloseSpelled()
    ensures MarkupText(ParagraphClose()) == "</b></p>\n"
    ensures DataText(ParagraphClose()) == "\n"
  {
    TitleTagsSpelled();
    ConsSpelled(Data("\n"), []);
    assert [Data("\n")] + [] == [Data("\n")];
    ConsSpelled(EndTag("p"), [Data("\n")]);
    ConsSpelled(EndTag("b"), [EndTag("p")] + [Data("\n")]);
  }

  lemma ParagraphSpelled(word: string)
    ensures MarkupText(TitleParagraph(word)) == "<p><b>" + word + "</b></p>\n"
    ensures DataText(TitleParagraph(word)) == word + "\n"
  {
    TitleTagsSpelled();
    ParagraphCloseSpelled();
    var closing := "</b></p>\n";
    var t2 := [Data(word)] + ParagraphClose();
    ConsSpelled(Data(word), ParagraphClose());
    var t1 := [StartTag("b", [])] + t2;
    ConsSpelled(StartTag("b", []), t2);
    ConsSpelled(StartTag("p", []), t1);
    ConcatAssoc("<p>", "<b>", word + closing);
    ConcatAssoc("<p><b>", word, closing);
  }

  /**
   * Lines 250-258 as written. `d.compare` at line 252 returns a generator;
   * the comprehension at line 253 runs it to its end, so the one at line
   * 254 finds no lines left and the removed section is always empty.
   */
  function ContentDiff(lines: seq<string>): string
  {
    // What line 254 filters: the generator already spent by line 253.
    var removedFromSpentDiff: seq<string> := [];
    DataText(NewTitleEvents()) + Concat(NewLines(lines)) + DataText(OldTitleEvents()) + Concat(OldLines(removedFromSpentDiff))
  }

  /**
   * The content diff as lines 262-264 build the HTML one: the comparer's
   * output is kept in a list, so both filters see every line.
   */
  function ContentDiffListed(lines: seq<string>): string
  {
    DataText(NewTitleEvents()) + Concat(NewLines(lines)) + DataText(OldTitleEvents()) + Concat(OldLines(lines))
  }

  /** Lines 265-268: the HTML diff, the removed lines struck through. */
  function HtmlDiff(lines: seq<string>): string
  {
    NewTitleHtml() + "<div>" + Concat(NewLines(lines)) + "</div>"
    + OldTitleHtml() + "<div><strike>" + Concat(OldLines(lines)) + "</strike></div>"
  }

  /** As written, the text diff lists the added texts and never a removed one. */
  lemma ContentDiffDropsRemovedTexts(ds: seq<DiffLine>)
    ensures ContentDiff(RenderAll(ds)) == "Обновленное:\n" + Concat(AddedTexts(ds)) + "Устаревшее:\n"
  {
    FiltersRecoverTexts(ds);
    TitleEventsSpellTitles();
    assert OldLines([]) == [];
    assert "Обновленное:\n" + Concat(AddedTexts(ds)) + "Устаревшее:\n" + "" ==
           "Обновленное:\n" + Concat(AddedTexts(ds)) + "Устаревшее:\n";
  }

  /** A diff that only removes the line "x\n": the text diff shows nothing under "Устаревшее:". */
  lemma RemovedLineIsLost()
    ensures ContentDiff(RenderAll([Removed("x\n")])) == "Обновленное:\n" + "Устаревшее:\n"
    ensures ContentDiffListed(RenderAll([Removed("x\n")])) == "Обновленное:\n" + "Устаревшее:\n" + "x\n"
    ensures ContentDiff(RenderAll([Removed("x\n")])) != ContentDiffListed(RenderAll([Removed("x\n")]))
  {
    var ds := [Removed("x\n")];
    ContentDiffDropsRemovedTexts(ds);
    DiffsOfTaggedLines(ds);
    assert AddedTexts(ds) == [] && RemovedTexts(ds) == ["x\n"];
    assert Concat(["x\n"]) == "x\n";
    assert "Обновленное:\n" + "" == "Обновленное:\n";
    assert |"Обновленное:\n" + "Устаревшее:\n"| < |"Обновленное:\n" + "Устаревшее:\n" + "x\n"|;
  }

  /** With the output kept in a list, both diffs list the added texts under the first title and the removed texts under the second. */
  lemma DiffsOfTaggedLines(ds: seq<DiffLine>)
    ensures ContentDiffListed(RenderAll(ds))
         == "Обновленное:\n" + Concat(AddedTexts(ds)) + "Устаревшее:\n" + Concat(RemovedTexts(ds))
    ensures HtmlDiff(RenderAll(ds))
         == NewTitleHtml() + "<div>" + Concat(AddedTexts(ds)) + "</div>"
          + OldTitleHtml() + "<div><strike>" + Concat(RemovedTexts(ds)) + "</strike></div>"
  {
    FiltersRecoverTexts(ds);
    TitleEventsSpellTitles();
  }
}
