/** HTML escaping and the watch-error mail. */
module Html {
  import opened Basics
  import opened Markup
  import opened Normaliser

  predicate Special(c: char) {
    c == '&' || c == '\'' || c == '<' || c == '>' || c == '"'
  }

  function EscapeChar(c: char): Text {
    if c == '&' then "&amp;"
    else if c == '\'' then "&#39;"
    else if c == '<' then "&lt;"
    else if c == '>' then "&gt;"
    else if c == '"' then "&#34;"
    else [c]
  }

  /** html.EscapeString */
  function Escape(s: Text): Text {
    if s == [] then [] else EscapeChar(s[0]) + Escape(s[1..])
  }

  /** How a reader undoes the five entities, and the one for a space that does not break. */
  function Unescape(s: Text): Text {
    if s == [] then []
    else if "&amp;" <= s then "&" + Unescape(s[5..])
    else if "&#39;" <= s then "'" + Unescape(s[5..])
    else if "&lt;" <= s then "<" + Unescape(s[4..])
    else if "&gt;" <= s then ">" + Unescape(s[4..])
    else if "&#34;" <= s then "\"" + Unescape(s[5..])
    else if "&nbsp;" <= s then "\U{00A0}" + Unescape(s[6..])
    else [s[0]] + Unescape(s[1..])
  }

  lemma UnescapeChar(c: char, rest: Text)
    ensures Unescape(EscapeChar(c) + rest) == [c] + Unescape(rest)
  {
    var e := EscapeChar(c);
    var s := e + rest;
    assert s[|e|..] == rest;
    assert s[0] == e[0];
    if Special(c) {
      assert s[1] == e[1] && s[2] == e[2];
      if c == '\'' || c == '"' {
        assert s[3] == e[3];
      }
    }
  }

  lemma UnescapeOther(c: char, rest: Text)
    requires c != '&'
    ensures Unescape([c] + rest) == [c] + Unescape(rest)
  {
    var s := [c] + rest;
    assert s[0] == c && s[1..] == rest;
  }

  lemma UnescapeSpace(rest: Text)
    ensures Unescape("&nbsp;" + rest) == "\U{00A0}" + Unescape(rest)
  {
    var s := "&nbsp;" + rest;
    assert s[6..] == rest;
    assert s[0] == '&' && s[1] == 'n';
  }

  lemma {:induction false} EscapeRoundTrip(s: Text)
    ensures Unescape(Escape(s)) == s
  {
    if s != [] {
      EscapeRoundTrip(s[1..]);
      UnescapeChar(s[0], Escape(s[1..]));
    }
  }

  lemma {:induction false} EscapeAppend(a: Text, b: Text)
    ensures Escape(a + b) == Escape(a) + Escape(b)
  {
    if a == [] {
      assert a + b == b;
    } else {
      assert (a + b)[1..] == a[1..] + b;
      EscapeAppend(a[1..], b);
    }
  }

  predicate Plain(s: Text) {
    forall k | 0 <= k < |s| :: !Special(s[k])
  }

  lemma {:induction false} EscapePlain(s: Text)
    requires Plain(s)
    ensures Escape(s) == s
  {
    if s != [] {
      EscapePlain(s[1..]);
    }
  }

  /** Escaped text holds no markup and cannot end an attribute. */
  lemma {:induction false} EscapedHasNoTag(s: Text)
    ensures forall c | c in Escape(s) :: c != '<' && c != '>' && c != '"' && c != '\''
  {
    if s != [] {
      EscapedHasNoTag(s[1..]);
    }
  }

  // ---- generateHTML ----

  function BreakLines(s: Text): Text {
    if s == [] then []
    else (if s[0] == '\n' then "<br>\n" else [s[0]]) + BreakLines(s[1..])
  }

  const OPENING: Text := "<html><body>"
  const CLOSING: Text := "</body></html>"

  function GenerateHTML(body: Text): Text {
    OPENING + BreakLines(body) + CLOSING
  }

  /** What a browser lays out: a line break for each br, and no other; None if a tag is left open. */
  function LaidOut(ts: seq<Token>): Option<Text> {
    if ts == [] then Some([])
    else
      match LaidOut(ts[1..])
      case None => None
      case Some(rest) =>
        match ts[0]
        case Unclosed => None
        case Tag(tag) => Some((if tag == "br" then "\n" else []) + rest)
        case Char(c) => Some((if c == '\n' then [] else [c]) + rest)
  }

  /** The text that a reader of the mail sees. */
  function ReadMail(mail: Text): Option<Text> {
    match LaidOut(Tokens(mail))
    case None => None
    case Some(text) => Some(Unescape(text))
  }

  lemma LaidOutFirst(t: Token, ts: seq<Token>)
    requires LaidOut(ts).Some? && !t.Unclosed?
    ensures LaidOut([t] + ts)
         == Some((match t
                  case Tag(tag) => if tag == "br" then "\n" else []
                  case Char(c) => if c == '\n' then [] else [c]) + LaidOut(ts).value)
  {
    assert ([t] + ts)[1..] == ts;
  }

  lemma TagLaidOut(tag: Text, rest: Text)
    requires All(BareChar, tag) && LaidOut(Tokens(rest)).Some?
    ensures var shown := LaidOut(Tokens(rest));
            LaidOut(Tokens(Wrapped(tag) + rest)) == if tag == "br" then Some("\n" + shown.value) else shown
  {
    assert [] + LaidOut(Tokens(rest)).value == LaidOut(Tokens(rest)).value;
    NameIsWhole(tag);
    TokensOfTag(tag, rest);
    LaidOutFirst(Tag(tag), Tokens(rest));
  }

  lemma CharLaidOut(c: char, rest: Text)
    requires c != '<' && LaidOut(Tokens(rest)).Some?
    ensures var shown := LaidOut(Tokens(rest));
            LaidOut(Tokens([c] + rest)) == if c == '\n' then shown else Some([c] + shown.value)
  {
    assert [] + LaidOut(Tokens(rest)).value == LaidOut(Tokens(rest)).value;
    TokensOfChar(c, rest);
    LaidOutFirst(Char(c), Tokens(rest));
  }

  lemma BreakIs()
    ensures Wrapped("br") + "\n" == "<br>\n"
  {
  }

  lemma BreakLaidOut(rest: Text)
    requires LaidOut(Tokens(rest)).Some?
    ensures LaidOut(Tokens("<br>\n" + rest)) == Some("\n" + LaidOut(Tokens(rest)).value)
  {
    CharLaidOut('\n', rest);
    TagLaidOut("br", "\n" + rest);
    BreakIs();
    Associate(Wrapped("br"), "\n", rest);
  }

  lemma {:induction false} LinesLaidOut(s: Text, rest: Text)
    requires '<' !in s && LaidOut(Tokens(rest)) == Some([])
    ensures LaidOut(Tokens(BreakLines(s) + rest)) == Some(s)
  {
    if s == [] {
      assert BreakLines(s) + rest == rest;
    } else {
      var first, more := if s[0] == '\n' then "<br>\n" else [s[0]], BreakLines(s[1..]);
      LinesLaidOut(s[1..], rest);
      Associate(first, more, rest);
      HeadAndTail(s);
      if s[0] == '\n' {
        BreakLaidOut(more + rest);
      } else {
        CharLaidOut(s[0], more + rest);
      }
    }
  }

  /** Two tags that are no line breaks show nothing. */
  lemma TagsLaidOut(a: Text, b: Text, rest: Text)
    requires All(BareChar, a) && All(BareChar, b) && a != "br" && b != "br" && LaidOut(Tokens(rest)).Some?
    ensures LaidOut(Tokens((Wrapped(a) + Wrapped(b)) + rest)) == LaidOut(Tokens(rest))
  {
    TagLaidOut(b, rest);
    TagLaidOut(a, Wrapped(b) + rest);
    Associate(Wrapped(a), Wrapped(b), rest);
  }

  /** A text between two opening and two closing tags. */
  lemma WrappedLaidOut(a: Text, b: Text, c: Text, d: Text, s: Text)
    requires All(BareChar, a) && All(BareChar, b) && a != "br" && b != "br"
    requires All(BareChar, c) && All(BareChar, d) && c != "br" && d != "br"
    requires '<' !in s
    ensures LaidOut(Tokens((Wrapped(a) + Wrapped(b)) + (BreakLines(s) + (Wrapped(c) + Wrapped(d))))) == Some(s)
  {
    assert Tokens([]) == [];
    TagsLaidOut(c, d, []);
    assert (Wrapped(c) + Wrapped(d)) + [] == Wrapped(c) + Wrapped(d);
    LinesLaidOut(s, Wrapped(c) + Wrapped(d));
    TagsLaidOut(a, b, BreakLines(s) + (Wrapped(c) + Wrapped(d)));
  }

  lemma GeneratedIs(body: Text)
    ensures GenerateHTML(body)
         == (Wrapped("html") + Wrapped("body")) + (BreakLines(body) + (Wrapped("/body") + Wrapped("/html")))
  {
    Associate(OPENING, BreakLines(body), CLOSING);
    assert OPENING == Wrapped("html") + Wrapped("body");
    assert CLOSING == Wrapped("/body") + Wrapped("/html");
  }

  /** What generateHTML makes of escaped text shows the text. */
  lemma ReadGenerated(s: Text)
    ensures ReadMail(GenerateHTML(Escape(s))) == Some(s)
  {
    EscapedHasNoTag(s);
    GeneratedIs(Escape(s));
    WrappedLaidOut("html", "body", "/body", "/html", Escape(s));
    EscapeRoundTrip(s);
  }

  // ---- the watch-error mail ----

  /** Numbers and durations as the program prints them: no character that HTML escapes. */
  type PlainText = s: Text | Plain(s) witness []

  datatype Report = Report(
    message: Text,
    name: Text,
    url: Text,
    status: PlainText,
    bodyLength: PlainText,
    duration: PlainText,
    headers: Text,
    body: Text)

  /** One line of the report. */
  function ReportLine(caption: Text, value: Text): Text {
    caption + value + "\n"
  }

  function ReportTitle(r: Report): Text {
    r.message + "\n\n" + ReportLine("Name: ", r.name)
  }

  function ReportHead(r: Report): Text {
    ReportTitle(r) + ReportLine("URL: ", r.url) + ReportLine("Status: ", r.status)
  }

  function ReportMiddle(r: Report): Text {
    ReportHead(r) + ReportLine("Bodylen: ", r.bodyLength) + ReportLine("Request Duration: ", r.duration)
  }

  /** The report before escaping. */
  function ReportText(r: Report): Text {
    ReportMiddle(r) + ReportLine("Header:\n", r.headers) + ReportLine("Body:\n", r.body)
  }

  lemma EscapeLine(caption: Text, value: Text)
    requires Plain(caption)
    ensures Escape(ReportLine(caption, value)) == caption + Escape(value) + "\n"
  {
    EscapeAppend(caption + value, "\n");
    EscapeAppend(caption, value);
    EscapePlain(caption);
    EscapePlain("\n");
  }

  /** What is in the builder is the escaped text `raw`, and stays so with one more line. */
  method WriteLine(sb: Text, ghost raw: Text, caption: Text, value: Text, escape: bool) returns (sb': Text)
    requires sb == Escape(raw) && Plain(caption) && (escape || Plain(value))
    ensures sb' == Escape(raw + ReportLine(caption, value))
  {
    EscapeAppend(raw, ReportLine(caption, value));
    EscapeLine(caption, value);
    if !escape {
      EscapePlain(value);
    }
    sb' := sb + (caption + (if escape then Escape(value) else value) + "\n");
  }

  method BuildTitle(r: Report) returns (sb: Text)
    ensures sb == Escape(ReportTitle(r))
  {
    sb := Escape(r.message) + "\n\n";
    EscapeAppend(r.message, "\n\n");
    EscapePlain("\n\n");
    sb := WriteLine(sb, r.message + "\n\n", "Name: ", r.name, true);
  }

  method BuildHead(r: Report) returns (sb: Text)
    ensures sb == Escape(ReportHead(r))
  {
    sb := BuildTitle(r);
    sb := WriteLine(sb, ReportTitle(r), "URL: ", r.url, true);
    sb := WriteLine(sb, ReportTitle(r) + ReportLine("URL: ", r.url), "Status: ", r.status, false);
  }

  method BuildMiddle(r: Report) returns (sb: Text)
    ensures sb == Escape(ReportMiddle(r))
  {
    sb := BuildHead(r);
    sb := WriteLine(sb, ReportHead(r), "Bodylen: ", r.bodyLength, false);
    sb := WriteLine(sb, ReportHead(r) + ReportLine("Bodylen: ", r.bodyLength), "Request Duration: ", r.duration, false);
  }

  /** SendWatchError's builder: free text is escaped piece by piece, numbers are not. */
  method BuildReport(r: Report) returns (sb: Text)
    ensures sb == Escape(ReportText(r))
  {
    sb := BuildMiddle(r);
    sb := WriteLine(sb, ReportMiddle(r), "Header:\n", r.headers, true);
    sb := WriteLine(sb, ReportMiddle(r) + ReportLine("Header:\n", r.headers), "Body:\n", r.body, true);
  }

  /** A reader of the HTML mail sees the whole report, line by line, and nothing else. */
  method WatchErrorMail(r: Report) returns (html: Text)
    ensures ReadMail(html)
         == Some(r.message + "\n\n"
                 + ("Name: " + r.name + "\n") + ("URL: " + r.url + "\n") + ("Status: " + r.status + "\n")
                 + ("Bodylen: " + r.bodyLength + "\n") + ("Request Duration: " + r.duration + "\n")
                 + ("Header:\n" + r.headers + "\n") + ("Body:\n" + r.body + "\n"))
  {
    var sb := BuildReport(r);
    html := GenerateHTML(sb);
    ReadGenerated(ReportText(r));
  }
}
