/** Showing a diff: the lines of the text mail, the rows of the HTML mail, the payload of a webhook. */
module Outputs {
  import opened Basics
  import opened Whitespace
  import opened Normaliser
  import opened Diff
  import opened Markup
  import Html

  // ---- the HTML table ----

  function RowClass(mode: LineMode): Text {
    match mode
    case Added => "la"
    case Removed => "lr"
    case Metadata => "lm"
    case Unchanged => "lu"
  }

  function MarkColour(mode: LineMode): Text {
    match mode
    case Added => "#28a745"
    case Removed => "#d73a49"
    case Metadata => "#d7bf3a"
    case Unchanged => "#f8f9fa"
  }

  function TextColour(mode: LineMode): Text {
    match mode
    case Added => "#e6ffed"
    case Removed => "#ffeef0"
    case Metadata => "#fffbe7"
    case Unchanged => "#f8f9fa"
  }

  /** A narrow coloured cell. */
  function MarkAttrs(mode: LineMode): seq<Attr> {
    [Attr("class", RowClass(mode)), Attr("width", "4"), Attr("bgcolor", MarkColour(mode)),
     Attr("style", "background-color: " + MarkColour(mode) + "; width: 4px; padding: 0;")]
  }

  /** The cell with the text. */
  function TextAttrs(mode: LineMode): seq<Attr> {
    [Attr("class", RowClass(mode) + "t"), Attr("bgcolor", TextColour(mode)),
     Attr("style", "background-color: " + TextColour(mode)
          + "; color: #000000; padding: 5px 10px" + "; font-family: monospace;")]
  }

  /** A non-breaking space in front stands for the space of an unchanged line. */
  const NBSP: Text := " &nbsp; "

  predicate Indented(l: Line) {
    l.mode.Unchanged? && l.content != [] && l.content[0] == ' '
  }

  function Cell(l: Line): Text {
    if Indented(l) then NBSP + Html.Escape(l.content[1..]) else Html.Escape(l.content)
  }

  function RowText(tr: Text, td: Text, mark: seq<Attr>, text: seq<Attr>, cell: Text): Text {
    OpenTag(tr, [])
    + (OpenTag(td, mark) + (CloseTag(td) + (OpenTag(td, text) + (cell + (CloseTag(td) + CloseTag(tr))))))
  }

  function HtmlRow(l: Line): Text {
    RowText("tr", "td", MarkAttrs(l.mode), TextAttrs(l.mode), Cell(l))
  }

  /** The rows of all lines, one after the other. */
  function HtmlTable(ls: seq<Line>): Text {
    if ls == [] then [] else HtmlRow(ls[0]) + HtmlTable(ls[1..])
  }

  // ---- what a browser shows of the table ----

  /** A row as it is shown: the class and the text of its last cell. */
  datatype ShownRow = ShownRow(class_: Text, text: Text)

  function RowEnds(cls: Option<Text>, text: Text, more: Option<seq<ShownRow>>): Option<seq<ShownRow>> {
    if cls.None? || more.None? then None else Some([ShownRow(cls.value, text)] + more.value)
  }

  /** The rows that end in these tokens; `cls` and `text` belong to the cell that is open. */
  function RowsIn(ts: seq<Token>, cls: Option<Text>, text: Text): Option<seq<ShownRow>> {
    if ts == [] then if cls.None? then Some([]) else None
    else
      match ts[0]
      case Unclosed => None
      case Char(c) => RowsIn(ts[1..], cls, text + [c])
      case Tag(tag) =>
        if NameOf(tag) == "td" then RowsIn(ts[1..], AttributeOf(tag, "class"), [])
        else if NameOf(tag) != "/tr" then RowsIn(ts[1..], cls, text)
        else RowEnds(cls, text, RowsIn(ts[1..], None, []))
  }

  function ReadTable(s: Text): Option<seq<ShownRow>> {
    RowsIn(Tokens(s), None, [])
  }

  /** Everything that is shown. */
  function TextIn(ts: seq<Token>): Text {
    if ts == [] then []
    else (if ts[0].Char? then [ts[0].c] else []) + TextIn(ts[1..])
  }

  function TextsOf(rows: seq<ShownRow>): Text {
    if rows == [] then [] else rows[0].text + TextsOf(rows[1..])
  }

  /** The line that a row shows. */
  function LineShown(row: ShownRow): Line {
    var text := Html.Unescape(row.text);
    if row.class_ == "lat" then Line(text, Added)
    else if row.class_ == "lrt" then Line(text, Removed)
    else if row.class_ == "lmt" then Line(text, Metadata)
    else if " \U{00A0} " <= text then Line(" " + text[3..], Unchanged)
    else Line(text, Unchanged)
  }

  // ---- reading one piece after the other ----

  lemma TagRead(tag: Text, rest: Text, cls: Option<Text>, text: Text)
    requires WholeTag(tag) && NameOf(tag) != "td" && NameOf(tag) != "/tr"
    ensures RowsIn(Tokens(Wrapped(tag) + rest), cls, text) == RowsIn(Tokens(rest), cls, text)
    ensures TextIn(Tokens(Wrapped(tag) + rest)) == TextIn(Tokens(rest))
  {
    TokensOfTag(tag, rest);
    assert ([Tag(tag)] + Tokens(rest))[1..] == Tokens(rest);
    assert [] + TextIn(Tokens(rest)) == TextIn(Tokens(rest));
  }

  lemma CellOpens(tag: Text, rest: Text, cls: Option<Text>, text: Text)
    requires WholeTag(tag) && NameOf(tag) == "td"
    ensures RowsIn(Tokens(Wrapped(tag) + rest), cls, text) == RowsIn(Tokens(rest), AttributeOf(tag, "class"), [])
    ensures TextIn(Tokens(Wrapped(tag) + rest)) == TextIn(Tokens(rest))
  {
    TokensOfTag(tag, rest);
    assert ([Tag(tag)] + Tokens(rest))[1..] == Tokens(rest);
    assert [] + TextIn(Tokens(rest)) == TextIn(Tokens(rest));
  }

  lemma RowCloses(tag: Text, rest: Text, cls: Option<Text>, text: Text)
    requires WholeTag(tag) && NameOf(tag) == "/tr" != "td"
    ensures RowsIn(Tokens(Wrapped(tag) + rest), cls, text) == RowEnds(cls, text, RowsIn(Tokens(rest), None, []))
    ensures TextIn(Tokens(Wrapped(tag) + rest)) == TextIn(Tokens(rest))
  {
    TokensOfTag(tag, rest);
    assert ([Tag(tag)] + Tokens(rest))[1..] == Tokens(rest);
    assert [] + TextIn(Tokens(rest)) == TextIn(Tokens(rest));
  }

  lemma CharsRead(c: char, ts: seq<Token>, cls: Option<Text>, text: Text)
    ensures RowsIn([Char(c)] + ts, cls, text) == RowsIn(ts, cls, text + [c])
    ensures TextIn([Char(c)] + ts) == [c] + TextIn(ts)
  {
    assert ([Char(c)] + ts)[1..] == ts;
  }

  lemma {:induction false} TextRead(s: Text, rest: Text, cls: Option<Text>, text: Text)
    requires All(NotTag, s)
    ensures RowsIn(Tokens(s + rest), cls, text) == RowsIn(Tokens(rest), cls, text + s)
    ensures TextIn(Tokens(s + rest)) == s + TextIn(Tokens(rest))
  {
    if s == [] {
      assert s + rest == rest && text + s == text;
      assert s + TextIn(Tokens(rest)) == TextIn(Tokens(rest));
    } else {
      AllTail(NotTag, s);
      HeadAndTail(s);
      TextRead(s[1..], rest, cls, text + [s[0]]);
      TokensOfChar(s[0], s[1..] + rest);
      CharsRead(s[0], Tokens(s[1..] + rest), cls, text);
      Associate([s[0]], s[1..], rest);
      Associate(text, [s[0]], s[1..]);
      Associate([s[0]], s[1..], TextIn(Tokens(rest)));
    }
  }

  // ---- a whole row ----

  lemma SplitRow(tr: Text, td: Text, mark: seq<Attr>, text: seq<Attr>, cell: Text, rest: Text)
    ensures RowText(tr, td, mark, text, cell) + rest
         == OpenTag(tr, []) + (OpenTag(td, mark) + (CloseTag(td) + (OpenTag(td, text)
            + (cell + (CloseTag(td) + (CloseTag(tr) + rest))))))
  {
    var e := CloseTag(td) + CloseTag(tr);
    Associate(CloseTag(td), CloseTag(tr), rest);
    Associate(cell, e, rest);
    Associate(OpenTag(td, text), cell + e, rest);
    Associate(CloseTag(td), OpenTag(td, text) + (cell + e), rest);
    Associate(OpenTag(td, mark), CloseTag(td) + (OpenTag(td, text) + (cell + e)), rest);
    Associate(OpenTag(tr, []), OpenTag(td, mark) + (CloseTag(td) + (OpenTag(td, text) + (cell + e))), rest);
  }

  lemma NameOfClose(name: Text)
    requires All(NameChar, name)
    ensures WholeTag("/" + name) && NameOf("/" + name) == "/" + name
  {
    var tag := "/" + name;
    assert All(NameChar, tag) by {
      assert NameChar('/');
    }
    NamesAreBare(tag);
    NameIsWhole(tag);
    NoEquals(tag);
    LeadIs(NotSpace, tag, |tag|);
    assert tag[..|tag|] == tag;
  }

  lemma OpenRead(name: Text, attrs: seq<Attr>)
    requires All(NameChar, name) && Writable(attrs)
    ensures WholeTag(TagText(name, attrs)) && NameOf(TagText(name, attrs)) == name
  {
    TagTextIsWhole(name, attrs);
    NameOfTag(name, attrs);
  }

  /** The names of the tags of a row. */
  ghost predicate RowNames(tr: Text, td: Text) {
    tr == "tr" && td == "td" && All(NameChar, tr) && All(NameChar, td)
    && "/" + tr == "/tr" && "/" + td != "td" && "/" + td != "/tr" && td != "/tr" && tr != "td" && tr != "/tr"
  }

  lemma RowNamesHold()
    ensures RowNames("tr", "td")
  {
    assert "/" + "tr" == "/tr" && "/" + "td" == "/td";
    assert "/td"[2] != "/tr"[2] && "tr"[1] != "td"[1];
  }

  lemma RowTail(tr: Text, td: Text, cell: Text, rest: Text, cls: Text)
    requires RowNames(tr, td) && All(NotTag, cell)
    ensures var s := cell + (CloseTag(td) + (CloseTag(tr) + rest));
            && RowsIn(Tokens(s), Some(cls), []) == RowEnds(Some(cls), cell, ReadTable(rest))
            && TextIn(Tokens(s)) == cell + TextIn(Tokens(rest))
  {
    var tail := CloseTag(td) + (CloseTag(tr) + rest);
    TextRead(cell, tail, Some(cls), []);
    assert [] + cell == cell;
    NameOfClose(td);
    TagRead("/" + td, CloseTag(tr) + rest, Some(cls), cell);
    NameOfClose(tr);
    RowCloses("/" + tr, rest, Some(cls), cell);
  }

  lemma CellRead(td: Text, a: Attr, more: seq<Attr>, tail: Text, cls: Option<Text>)
    requires RowNames("tr", td) && Writable([a] + more) && a.name == "class"
    ensures var s := OpenTag(td, [a] + more) + tail;
            && RowsIn(Tokens(s), cls, []) == RowsIn(Tokens(tail), Some(a.value), [])
            && TextIn(Tokens(s)) == TextIn(Tokens(tail))
  {
    assert WritableAttr(([a] + more)[0]);
    OpenRead(td, [a] + more);
    FirstAttribute(td, a, more);
    CellOpens(TagText(td, [a] + more), tail, cls, []);
  }

  lemma RowHead(tr: Text, td: Text, mark: seq<Attr>, tail: Text)
    requires RowNames(tr, td) && Writable(mark)
    ensures var s := OpenTag(tr, []) + (OpenTag(td, mark) + (CloseTag(td) + tail));
            && ReadTable(s) == RowsIn(Tokens(tail), AttributeOf(TagText(td, mark), "class"), [])
            && TextIn(Tokens(s)) == TextIn(Tokens(tail))
  {
    OpenRead(tr, []);
    TagRead(TagText(tr, []), OpenTag(td, mark) + (CloseTag(td) + tail), None, []);
    OpenRead(td, mark);
    CellOpens(TagText(td, mark), CloseTag(td) + tail, None, []);
    NameOfClose(td);
    TagRead("/" + td, tail, AttributeOf(TagText(td, mark), "class"), []);
  }

  lemma RowRead(tr: Text, td: Text, mark: seq<Attr>, a: Attr, more: seq<Attr>, cell: Text, rest: Text)
    requires RowNames(tr, td) && Writable(mark) && Writable([a] + more) && a.name == "class" && All(NotTag, cell)
    ensures var s := RowText(tr, td, mark, [a] + more, cell) + rest;
            && ReadTable(s) == RowEnds(Some(a.value), cell, ReadTable(rest))
            && TextIn(Tokens(s)) == cell + TextIn(Tokens(rest))
  {
    var tail := cell + (CloseTag(td) + (CloseTag(tr) + rest));
    SplitRow(tr, td, mark, [a] + more, cell, rest);
    RowHead(tr, td, mark, OpenTag(td, [a] + more) + tail);
    CellRead(td, a, more, tail, AttributeOf(TagText(td, mark), "class"));
    RowTail(tr, td, cell, rest, a.value);
  }

  // ---- the table ----

  lemma ColoursWritable(mode: LineMode)
    ensures All(NotQuote, MarkColour(mode)) && All(NotQuote, TextColour(mode)) && All(NotQuote, RowClass(mode))
  {
  }

  lemma ValueJoined(x: Text, y: Text)
    requires All(NotQuote, x) && All(NotQuote, y)
    ensures All(NotQuote, x + y)
  {
  }

  lemma AttrNamesWritable()
    ensures All(NameChar, "class") && All(NameChar, "width") && All(NameChar, "bgcolor") && All(NameChar, "style")
  {
  }

  lemma MarkWritable(mode: LineMode)
    ensures Writable(MarkAttrs(mode))
  {
    AttrNamesWritable();
    ColoursWritable(mode);
    ValueJoined("background-color: ", MarkColour(mode));
    ValueJoined("background-color: " + MarkColour(mode), "; width: 4px; padding: 0;");
    assert All(NotQuote, "4");
  }

  lemma TextWritable(mode: LineMode)
    ensures Writable(TextAttrs(mode))
  {
    AttrNamesWritable();
    ColoursWritable(mode);
    ValueJoined(RowClass(mode), "t");
    ValueJoined("background-color: ", TextColour(mode));
    ValueJoined("background-color: " + TextColour(mode), "; color: #000000; padding: 5px 10px");
    ValueJoined("background-color: " + TextColour(mode) + "; color: #000000; padding: 5px 10px",
                "; font-family: monospace;");
  }

  lemma EscapedNotTag(s: Text)
    ensures All(NotTag, Html.Escape(s))
  {
    Html.EscapedHasNoTag(s);
    var e := Html.Escape(s);
    forall k | 0 <= k < |e| ensures NotTag(e[k]) {
      assert e[k] in e;
    }
  }

  /** A line's content cannot close its cell. */
  lemma CellHasNoTag(l: Line)
    ensures All(NotTag, Cell(l))
  {
    if Indented(l) {
      EscapedNotTag(l.content[1..]);
      assert All(NotTag, NBSP);
    } else {
      EscapedNotTag(l.content);
    }
  }

  lemma LineRead(l: Line, rest: Text)
    ensures var s := HtmlRow(l) + rest;
            && ReadTable(s) == RowEnds(Some(RowClass(l.mode) + "t"), Cell(l), ReadTable(rest))
            && TextIn(Tokens(s)) == Cell(l) + TextIn(Tokens(rest))
  {
    var attrs := TextAttrs(l.mode);
    var a, more := attrs[0], attrs[1..];
    assert attrs == [a] + more;
    MarkWritable(l.mode);
    TextWritable(l.mode);
    CellHasNoTag(l);
    RowNamesHold();
    RowRead("tr", "td", MarkAttrs(l.mode), a, more, Cell(l), rest);
  }

  function RowsOf(ls: seq<Line>): seq<ShownRow> {
    if ls == [] then [] else [ShownRow(RowClass(ls[0].mode) + "t", Cell(ls[0]))] + RowsOf(ls[1..])
  }

  lemma TextsFirst(row: ShownRow, rows: seq<ShownRow>)
    ensures TextsOf([row] + rows) == row.text + TextsOf(rows)
  {
    assert ([row] + rows)[1..] == rows;
  }

  lemma {:induction false} TableRead(ls: seq<Line>)
    ensures ReadTable(HtmlTable(ls)) == Some(RowsOf(ls))
    ensures TextIn(Tokens(HtmlTable(ls))) == TextsOf(RowsOf(ls))
  {
    if ls != [] {
      TableRead(ls[1..]);
      LineRead(ls[0], HtmlTable(ls[1..]));
      TextsFirst(ShownRow(RowClass(ls[0].mode) + "t", Cell(ls[0])), RowsOf(ls[1..]));
    }
  }

  lemma {:induction false} RowsOfAt(ls: seq<Line>, i: nat)
    requires i < |ls|
    ensures |RowsOf(ls)| == |ls| && RowsOf(ls)[i] == ShownRow(RowClass(ls[i].mode) + "t", Cell(ls[i]))
  {
    if |ls| > 1 {
      RowsOfAt(ls[1..], if i > 0 then i - 1 else 0);
    }
  }

  lemma NbspIs()
    ensures NBSP == " " + ("&nbsp;" + " ")
  {
  }

  lemma AroundSpace(space: Text, rest: Text)
    ensures (" " + (space + " ")) + rest == " " + (space + (" " + rest))
  {
    Associate(space, " ", rest);
    Associate(" ", space + " ", rest);
  }

  lemma NbspShown(rest: Text)
    ensures Html.Unescape(NBSP + rest) == " \U{00A0} " + Html.Unescape(rest)
  {
    var shown := Html.Unescape(rest);
    Html.UnescapeOther(' ', rest);
    Html.UnescapeSpace(" " + rest);
    Html.UnescapeOther(' ', "&nbsp;" + (" " + rest));
    NbspIs();
    AroundSpace("&nbsp;", rest);
    AroundSpace("\U{00A0}", shown);
    assert " " + ("\U{00A0}" + " ") == " \U{00A0} ";
  }

  /** What the reader sees in a cell: the content, a leading space of an unchanged line made visible. */
  lemma CellShows(l: Line)
    ensures Html.Unescape(Cell(l))
         == if l.mode.Unchanged? && l.content != [] && l.content[0] == ' ' then " \U{00A0} " + l.content[1..]
            else l.content
  {
    if Indented(l) {
      NbspShown(Html.Escape(l.content[1..]));
      Html.EscapeRoundTrip(l.content[1..]);
    } else {
      Html.EscapeRoundTrip(l.content);
    }
  }

  lemma ClassOfMode(mode: LineMode)
    ensures RowClass(mode) + "t"
         == match mode case Added => "lat" case Removed => "lrt" case Metadata => "lmt" case Unchanged => "lut"
  {
  }

  lemma RowShowsLine(l: Line)
    ensures LineShown(ShownRow(RowClass(l.mode) + "t", Cell(l))) == l
  {
    CellShows(l);
    ClassOfMode(l.mode);
    if Indented(l) {
      assert (" \U{00A0} " + l.content[1..])[3..] == l.content[1..];
      assert " " + l.content[1..] == l.content;
    } else if l.mode.Unchanged? && l.content != [] {
      NoPrefix(" \U{00A0} ", l.content, 0);
    }
  }

  /**
    A browser shows every line once, in order and with its mode, and nothing else:
    reading the rendered table tag by tag gives the lines, whatever they contain.
   */
  lemma TableShowsLines(ls: seq<Line>)
    ensures ReadTable(HtmlTable(ls)).Some?
    ensures var rows := ReadTable(HtmlTable(ls)).value;
            && |rows| == |ls|
            && (forall i | 0 <= i < |ls| :: LineShown(rows[i]) == ls[i])
            && TextIn(Tokens(HtmlTable(ls))) == TextsOf(rows)
  {
    TableRead(ls);
    forall i | 0 <= i < |ls| ensures |RowsOf(ls)| == |ls| && LineShown(RowsOf(ls)[i]) == ls[i] {
      RowsOfAt(ls, i);
      RowShowsLine(ls[i]);
    }
  }

  // ---- the webhook's payload ----

  /** An entry of the webhook's JSON payload. */
  datatype Entry = Entry(content: Text, mode: string)

  function ModeName(m: LineMode): string {
    match m
    case Unchanged => "unchanged"
    case Added => "added"
    case Removed => "deleted"
    case Metadata => "metadata"
  }

  /** Only some verbs carry a body. */
  function Payload(verb: string, ls: seq<Line>): Option<seq<Entry>> {
    if verb == "POST" || verb == "PUT" || verb == "PATCH"
    then Some(seq(|ls|, i requires 0 <= i < |ls| => Entry(ls[i].content, ModeName(ls[i].mode))))
    else None
  }

  function ReadName(name: string): LineMode {
    if name == "added" then Added
    else if name == "deleted" then Removed
    else if name == "metadata" then Metadata
    else Unchanged
  }

  function ReadEntry(e: Entry): Line {
    Line(e.content, ReadName(e.mode))
  }

  /** Only POST, PUT and PATCH carry the lines; every entry names its mode. */
  lemma PayloadShowsLines(verb: string, ls: seq<Line>)
    ensures Payload(verb, ls).Some? <==> verb == "POST" || verb == "PUT" || verb == "PATCH"
    ensures Payload(verb, ls).Some? ==>
              var entries := Payload(verb, ls).value;
              |entries| == |ls| && forall i | 0 <= i < |ls| ::
                && ReadEntry(entries[i]) == ls[i]
                && entries[i].mode == match ls[i].mode
                                      case Added => "added"
                                      case Removed => "deleted"
                                      case Metadata => "metadata"
                                      case Unchanged => "unchanged"
  {
  }

  // ---- the text mail ----

  /** The lines of the text mail, below the metadata. */
  function TextLines(ls: seq<Line>): Text {
    if ls == [] then [] else ls[0].content + "\n" + TextLines(ls[1..])
  }

  ghost predicate LinesAreLines(ls: seq<Line>) {
    forall k | 0 <= k < |ls| :: All(InLine, ls[k].content)
  }

  lemma {:induction false} ScannedInLine(s: Text)
    ensures AllInLine(ScanLines(s))
    decreases |s|
  {
    if s != [] {
      ScannedInLine(NextLines(s));
      ScanStep(s);
      InLineFirst(DropCR(s[..Lead(InLine, s)]), ScanLines(NextLines(s)));
    }
  }

  lemma {:induction false} ClassifiedInLine(ls: seq<Text>)
    requires AllInLine(ls)
    ensures LinesAreLines(AllClassified(ls))
  {
    if ls != [] {
      ClassifiedInLine(ls[1..]);
      assert All(InLine, ls[0]);
    }
  }

  function Contents(ls: seq<Line>): seq<Text> {
    if ls == [] then [] else [ls[0].content] + Contents(ls[1..])
  }

  lemma {:induction false} TextShowsLines(ls: seq<Line>)
    requires LinesAreLines(ls)
    ensures SplitLines(TextLines(ls)) == Contents(ls) + [[]]
  {
    if ls == [] {
      assert SplitLines([]) == [[]];
    } else {
      TextShowsLines(ls[1..]);
      SplitFirst(ls[0].content, TextLines(ls[1..]));
    }
  }

  lemma ParsedInLine(raw: Text)
    requires Parsed(raw).Some?
    ensures LinesAreLines(Parsed(raw).value.lines)
  {
    ScannedInLine(raw);
    ClassifiedInLine(ScanLines(raw));
  }

  // ---- all three ----

  /**
    For every diff that GenerateDiff can return, the text mail, the HTML table and
    the payload of a webhook with a body show the same lines, once each and in the
    same order; table and payload also show each line's mode.
   */
  lemma OutputsAgree(raw: Text, verb: string)
    requires Parsed(raw).Some? && (verb == "POST" || verb == "PUT" || verb == "PATCH")
    ensures Payload(verb, Parsed(raw).value.lines).Some?
    ensures var ls := Parsed(raw).value.lines;
            var entries := Payload(verb, ls).value;
            && SplitLines(TextLines(ls)) == Contents(ls) + [[]]
            && ReadTable(HtmlTable(ls)).Some? && |ReadTable(HtmlTable(ls)).value| == |entries| == |ls|
            && (forall i | 0 <= i < |ls| :: LineShown(ReadTable(HtmlTable(ls)).value[i]) == ls[i])
            && (forall i | 0 <= i < |ls| :: ReadEntry(entries[i]) == ls[i])
  {
    var ls := Parsed(raw).value.lines;
    ParsedInLine(raw);
    TextShowsLines(ls);
    TableShowsLines(ls);
    PayloadShowsLines(verb, ls);
  }
}
