/** The markup-to-text parser used for the plain-text parts of the notification. */
module PlainText {
  import opened Markup

  class HtmlToPlainParser {
    var content: string

    constructor ()
      ensures content == ""
    {
      content := "";
    }

    /** `handle_data` (lines 139-140); tags are ignored. */
    method HandleData(data: string)
      modifies this
      ensures content == old(content) + data
    {
      content := content + data;
    }

    /**
     * `feed` (lines 142-146): returns the text gathered, that is every
     * chunk of this call's events in order, and empties the buffer.
     */
    method Feed(events: seq<Event>) returns (text: string)
      modifies this
      ensures text == old(content) + DataText(events)
      ensures content == ""
    {
      for i := 0 to |events|
        invariant content == old(content) + DataText(events[..i])
      {
        assert events[..i + 1] == events[..i] + [events[i]];
        DataTextConcat(events[..i], [events[i]]);
        if events[i].Data? {
          HandleData(events[i].text);
        }
      }
      assert events[..|events|] == events;
      text := content;
      content := "";
    }
  }

  /**
   * The script feeds one parser several fragments in turn (lines 235,
   * 255, 257 and 303): since each call empties the buffer, each returns exactly the
   * text of its own fragment.
   */
  method FeedTwice(first: seq<Event>, second: seq<Event>) returns (a: string, b: string)
    ensures a == DataText(first)
    ensures b == DataText(second)
  {
    var parser := new HtmlToPlainParser();
    a := parser.Feed(first);
    b := parser.Feed(second);
  }
}
