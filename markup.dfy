/**
 * The events an HTML tokenizer hands to a parser's callbacks, and their
 * rendering back to markup.
 */
module Markup {
  import opened Wrappers

  /** A tag attribute; an attribute written without a value has value None. */
  datatype Attr = Attr(name: string, value: Option<string>)

  datatype Event =
    | StartTag(tag: string, attrs: seq<Attr>)
    | Data(text: string)
    | EndTag(tag: string)

  /** How `'{}'.format(v)` prints an attribute value: None prints as "None". */
  function ValueText(v: Option<string>): string
  {
    match v
    case None => "None"
    case Some(s) => s
  }

  /** One attribute as the region rebuilder writes it: ` name="value"`. */
  function AttrText(a: Attr): string
  {
    " " + a.name + "=\"" + ValueText(a.value) + "\""
  }

  function AttrsText(attrs: seq<Attr>): string
  {
    if attrs == [] then "" else AttrText(attrs[0]) + AttrsText(attrs[1..])
  }

  function OpenTagText(tag: string, attrs: seq<Attr>): string
  {
    "<" + tag + AttrsText(attrs) + ">"
  }

  function CloseTagText(tag: string): string
  {
    "</" + tag + ">"
  }

  /** The text of a data event; tags carry none. */
  function EventData(e: Event): string
  {
    if e.Data? then e.text else ""
  }

  /** The character data of a sequence of events, in order. */
  function DataText(events: seq<Event>): string
  {
    if events == [] then "" else EventData(events[0]) + DataText(events[1..])
  }

  /** The markup an event stands for when it is copied out verbatim. */
  function EventMarkup(e: Event): string
  {
    match e
    case StartTag(tag, attrs) => OpenTagText(tag, attrs)
    case Data(text) => text
    case EndTag(tag) => CloseTagText(tag)
  }

  function MarkupText(events: seq<Event>): string
  {
    if events == [] then "" else EventMarkup(events[0]) + MarkupText(events[1..])
  }

  /** Every attribute is written, in order: rendering distributes over concatenation. */
  lemma {:induction false} AttrsTextConcat(a: seq<Attr>, b: seq<Attr>)
    ensures AttrsText(a + b) == AttrsText(a) + AttrsText(b)
  {
    if a != [] {
      assert (a + b)[1..] == a[1..] + b;
      AttrsTextConcat(a[1..], b);
    } else {
      assert a + b == b;
    }
  }

  lemma {:induction false} DataTextConcat(a: seq<Event>, b: seq<Event>)
    ensures DataText(a + b) == DataText(a) + DataText(b)
  {
    if a != [] {
      assert (a + b)[1..] == a[1..] + b;
      DataTextConcat(a[1..], b);
    } else {
      assert a + b == b;
    }
  }

  lemma {:induction false} MarkupTextConcat(a: seq<Event>, b: seq<Event>)
    ensures MarkupText(a + b) == MarkupText(a) + MarkupText(b)
  {
    if a != [] {
      assert (a + b)[1..] == a[1..] + b;
      MarkupTextConcat(a[1..], b);
    } else {
      assert a + b == b;
    }
  }
}
