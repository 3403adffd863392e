/** Writing tags, and reading marked-up text as a browser does: tags with quoted attributes, and characters. */
module Markup {
  import opened Basics
  import opened Whitespace
  import opened Normaliser

  // ---- writing ----

  datatype Attr = Attr(name: Text, value: Text)

  function AttrText(a: Attr): Text {
    " " + (a.name + ("=\"" + (a.value + "\"")))
  }

  function AttrsText(attrs: seq<Attr>): Text {
    if attrs == [] then [] else AttrText(attrs[0]) + AttrsText(attrs[1..])
  }

  function TagText(name: Text, attrs: seq<Attr>): Text {
    name + AttrsText(attrs)
  }

  function Wrapped(tag: Text): Text {
    "<" + (tag + ">")
  }

  function OpenTag(name: Text, attrs: seq<Attr>): Text {
    Wrapped(TagText(name, attrs))
  }

  function CloseTag(name: Text): Text {
    Wrapped("/" + name)
  }

  // ---- reading ----

  /** An opened tag that no `>` closes swallows the rest of the text. */
  datatype Token = Tag(text: Text) | Char(c: char) | Unclosed

  predicate IsQuote(c: char) {
    c == '"' || c == '\''
  }

  /** The first `>` that is not inside quotes; `quote` is the quote that the text starts in. */
  function TagEnd(s: Text, quote: Option<char>): (r: Option<nat>)
    ensures r.Some? ==> r.value < |s|
  {
    if s == [] then None
    else
      match quote
      case None =>
        if s[0] == '>' then Some(0)
        else Shift(TagEnd(s[1..], if IsQuote(s[0]) then Some(s[0]) else None), 1)
      case Some(q) => Shift(TagEnd(s[1..], if s[0] == q then None else quote), 1)
  }

  function Tokens(s: Text): seq<Token>
    decreases |s|
  {
    if s == [] then []
    else if s[0] != '<' then [Char(s[0])] + Tokens(s[1..])
    else
      match TagEnd(s[1..], None)
      case None => [Unclosed]
      case Some(n) => [Tag(s[1..][..n])] + Tokens(s[1..][n + 1..])
  }

  predicate NotSpace(c: char) {
    c != ' '
  }

  predicate NotEquals(c: char) {
    c != '='
  }

  predicate NotQuote(c: char) {
    c != '"'
  }

  function NameOf(tag: Text): Text {
    tag[..Lead(NotSpace, tag)]
  }

  /** The value of the attribute in a list of the form ` name="value" name="value"`. */
  function FindAttr(s: Text, name: Text): Option<Text>
    decreases |s|
  {
    if s == [] || s[0] != ' ' then None
    else
      var t := s[1..];
      var k := Lead(NotEquals, t);
      if k + 1 >= |t| || t[k + 1] != '"' then None
      else
        var v := t[k + 2..];
        var e := Lead(NotQuote, v);
        if e == |v| then None
        else if t[..k] == name then Some(v[..e])
        else FindAttr(v[e + 1..], name)
  }

  function AttributeOf(tag: Text, name: Text): Option<Text> {
    FindAttr(tag[Lead(NotSpace, tag)..], name)
  }

  // ---- reading what was written ----

  /** No character of a tag's or an attribute's name ends it. */
  predicate NameChar(c: char) {
    c != ' ' && c != '=' && c != '>' && c != '<' && !IsQuote(c)
  }

  ghost predicate WritableAttr(a: Attr) {
    All(NameChar, a.name) && All(NotQuote, a.value)
  }

  ghost predicate Writable(attrs: seq<Attr>) {
    forall i {:trigger WritableAttr(attrs[i])} | 0 <= i < |attrs| :: WritableAttr(attrs[i])
  }

  predicate BareChar(c: char) {
    c != '>' && !IsQuote(c)
  }

  lemma TagEndBare(c: char, rest: Text)
    requires BareChar(c)
    ensures TagEnd([c] + rest, None) == Shift(TagEnd(rest, None), 1)
  {
    assert ([c] + rest)[1..] == rest;
  }

  lemma TagEndOpens(rest: Text)
    ensures TagEnd("\"" + rest, None) == Shift(TagEnd(rest, Some('"')), 1)
  {
    assert ("\"" + rest)[1..] == rest;
  }

  lemma TagEndInside(c: char, rest: Text)
    ensures TagEnd([c] + rest, Some('"')) == Shift(TagEnd(rest, if c == '"' then None else Some('"')), 1)
  {
    assert ([c] + rest)[1..] == rest;
  }

  lemma AllTail(p: char -> bool, s: Text)
    requires All(p, s) && s != []
    ensures p(s[0]) && All(p, s[1..])
  {
  }

  lemma HeadAndTail(s: Text)
    requires s != []
    ensures s == [s[0]] + s[1..]
  {
  }

  lemma {:induction false} TagEndAfterName(name: Text, rest: Text)
    requires All(BareChar, name)
    ensures TagEnd(name + rest, None) == Shift(TagEnd(rest, None), |name|)
  {
    if name == [] {
      assert name + rest == rest;
    } else {
      AllTail(BareChar, name);
      HeadAndTail(name);
      TagEndAfterName(name[1..], rest);
      TagEndBare(name[0], name[1..] + rest);
      Associate([name[0]], name[1..], rest);
    }
  }

  lemma {:induction false} TagEndAfterValue(value: Text, rest: Text)
    requires All(NotQuote, value)
    ensures TagEnd(value + ("\"" + rest), Some('"')) == Shift(TagEnd(rest, None), |value| + 1)
  {
    if value == [] {
      assert value + ("\"" + rest) == "\"" + rest;
      TagEndInside('"', rest);
    } else {
      AllTail(NotQuote, value);
      HeadAndTail(value);
      TagEndAfterValue(value[1..], rest);
      TagEndInside(value[0], value[1..] + ("\"" + rest));
      Associate([value[0]], value[1..], "\"" + rest);
    }
  }

  lemma NamesAreBare(name: Text)
    requires All(NameChar, name)
    ensures All(BareChar, name)
  {
  }

  lemma AttrTextSplit(a: Attr, rest: Text)
    ensures AttrText(a) + rest == " " + (a.name + ("=" + ("\"" + (a.value + ("\"" + rest)))))
    ensures |AttrText(a)| == 1 + |a.name| + 1 + 1 + |a.value| + 1
  {
    Associate(a.value, "\"", rest);
    Associate("=\"", a.value + "\"", rest);
    Associate("=", "\"", a.value + ("\"" + rest));
    assert "=" + "\"" == "=\"";
    Associate(a.name, "=\"" + (a.value + "\""), rest);
    Associate(" ", a.name + ("=\"" + (a.value + "\"")), rest);
  }

  lemma TagEndAfterAttr(a: Attr, rest: Text)
    requires WritableAttr(a)
    ensures TagEnd(AttrText(a) + rest, None) == Shift(TagEnd(rest, None), |AttrText(a)|)
  {
    AttrTextSplit(a, rest);
    NamesAreBare(a.name);
    TagEndAfterValue(a.value, rest);
    TagEndOpens(a.value + ("\"" + rest));
    TagEndBare('=', "\"" + (a.value + ("\"" + rest)));
    TagEndAfterName(a.name, "=" + ("\"" + (a.value + ("\"" + rest))));
    TagEndBare(' ', a.name + ("=" + ("\"" + (a.value + ("\"" + rest)))));
  }

  lemma WritableTail(attrs: seq<Attr>)
    requires Writable(attrs) && attrs != []
    ensures WritableAttr(attrs[0]) && Writable(attrs[1..])
  {
  }

  lemma {:induction false} TagEndAfterAttrs(attrs: seq<Attr>, rest: Text)
    requires Writable(attrs)
    ensures TagEnd(AttrsText(attrs) + rest, None) == Shift(TagEnd(rest, None), |AttrsText(attrs)|)
  {
    if attrs == [] {
      assert AttrsText(attrs) + rest == rest;
    } else {
      WritableTail(attrs);
      TagEndAfterAttrs(attrs[1..], rest);
      TagEndAfterAttr(attrs[0], AttrsText(attrs[1..]) + rest);
      Associate(AttrText(attrs[0]), AttrsText(attrs[1..]), rest);
    }
  }

  /** The text of a tag, none of whose `>` is outside quotes. */
  ghost predicate WholeTag(tag: Text) {
    forall rest: Text {:trigger TagEnd(tag + rest, None)} ::
      TagEnd(tag + rest, None) == Shift(TagEnd(rest, None), |tag|)
  }

  lemma TagEndAfterText(name: Text, attrs: seq<Attr>, rest: Text)
    requires All(NameChar, name) && Writable(attrs)
    ensures TagEnd(TagText(name, attrs) + rest, None) == Shift(TagEnd(rest, None), |TagText(name, attrs)|)
  {
    NamesAreBare(name);
    TagEndAfterAttrs(attrs, rest);
    TagEndAfterName(name, AttrsText(attrs) + rest);
    Associate(name, AttrsText(attrs), rest);
  }

  lemma TagTextIsWhole(name: Text, attrs: seq<Attr>)
    requires All(NameChar, name) && Writable(attrs)
    ensures WholeTag(TagText(name, attrs))
  {
    forall rest: Text
      ensures TagEnd(TagText(name, attrs) + rest, None) == Shift(TagEnd(rest, None), |TagText(name, attrs)|)
    {
      TagEndAfterText(name, attrs, rest);
    }
  }

  lemma NameIsWhole(name: Text)
    requires All(BareChar, name)
    ensures WholeTag(name)
  {
    forall rest: Text ensures TagEnd(name + rest, None) == Shift(TagEnd(rest, None), |name|) {
      TagEndAfterName(name, rest);
    }
  }

  lemma WrappedEnd(tag: Text, rest: Text)
    requires WholeTag(tag)
    ensures TagEnd(tag + (">" + rest), None) == Some(|tag|)
  {
    assert TagEnd(">" + rest, None) == Some(0);
  }

  lemma WrappedSplit(tag: Text, rest: Text)
    ensures var s := Wrapped(tag) + rest;
            && s != [] && s[0] == '<' && s[1..] == tag + (">" + rest)
            && s[1..][..|tag|] == tag && s[1..][|tag| + 1..] == rest
  {
    Associate("<", tag + ">", rest);
    Associate(tag, ">", rest);
  }

  lemma TokensOfTag(tag: Text, rest: Text)
    requires WholeTag(tag)
    ensures Tokens(Wrapped(tag) + rest) == [Tag(tag)] + Tokens(rest)
  {
    WrappedSplit(tag, rest);
    WrappedEnd(tag, rest);
  }

  lemma TokensOfChar(c: char, rest: Text)
    requires c != '<'
    ensures Tokens([c] + rest) == [Char(c)] + Tokens(rest)
  {
    assert ([c] + rest)[1..] == rest;
  }

  predicate NotTag(c: char) {
    c != '<'
  }

  function Chars(s: Text): seq<Token> {
    if s == [] then [] else [Char(s[0])] + Chars(s[1..])
  }

  lemma {:induction false} TokensOfText(s: Text, rest: Text)
    requires All(NotTag, s)
    ensures Tokens(s + rest) == Chars(s) + Tokens(rest)
  {
    if s == [] {
      assert s + rest == rest;
    } else {
      AllTail(NotTag, s);
      HeadAndTail(s);
      TokensOfText(s[1..], rest);
      TokensOfChar(s[0], s[1..] + rest);
      Associate([s[0]], s[1..], rest);
      Associate([Char(s[0])], Chars(s[1..]), Tokens(rest));
    }
  }

  lemma LeadOfPrefix(p: char -> bool, s: Text, c: char, rest: Text)
    requires All(p, s) && !p(c)
    ensures var t := s + ([c] + rest);
            Lead(p, t) == |s| && t[..|s|] == s && t[|s|..] == [c] + rest && t[|s| + 1..] == rest
  {
    var t := s + ([c] + rest);
    assert t[|s|] == c;
    LeadIs(p, t, |s|);
    assert t[|s|..] == [c] + rest;
    assert t[|s| + 1..] == rest;
  }

  lemma NoEquals(name: Text)
    requires All(NameChar, name)
    ensures All(NotEquals, name) && All(NotSpace, name)
  {
  }

  /** The first attribute of a list is found, or the search goes on after it. */
  lemma FindFirst(a: Attr, rest: Text, name: Text)
    requires WritableAttr(a)
    ensures FindAttr(AttrText(a) + rest, name) == if a.name == name then Some(a.value) else FindAttr(rest, name)
  {
    AttrTextSplit(a, rest);
    var v := a.value + ("\"" + rest);
    var t := a.name + ("=" + ("\"" + v));
    assert (" " + t)[1..] == t;
    NoEquals(a.name);
    LeadOfPrefix(NotEquals, a.name, '=', "\"" + v);
    assert t[|a.name| + 1..] == "\"" + v;
    assert t[|a.name| + 1] == '"' && t[|a.name| + 2..] == v;
    LeadOfPrefix(NotQuote, a.value, '"', rest);
  }

  lemma AttrsStart(attrs: seq<Attr>)
    requires attrs != []
    ensures AttrsText(attrs) != [] && AttrsText(attrs) == " " + AttrsText(attrs)[1..]
  {
    AttrTextSplit(attrs[0], AttrsText(attrs[1..]));
  }

  lemma NameOfTag(name: Text, attrs: seq<Attr>)
    requires All(NameChar, name)
    ensures NameOf(TagText(name, attrs)) == name
    ensures TagText(name, attrs)[Lead(NotSpace, TagText(name, attrs))..] == AttrsText(attrs)
  {
    NoEquals(name);
    if attrs == [] {
      assert TagText(name, attrs) == name;
      LeadIs(NotSpace, name, |name|);
    } else {
      AttrsStart(attrs);
      LeadOfPrefix(NotSpace, name, ' ', AttrsText(attrs)[1..]);
    }
  }

  /** The first attribute of a written tag is read back. */
  lemma FirstAttribute(name: Text, a: Attr, more: seq<Attr>)
    requires All(NameChar, name) && WritableAttr(a)
    ensures AttributeOf(TagText(name, [a] + more), a.name) == Some(a.value)
  {
    NameOfTag(name, [a] + more);
    assert ([a] + more)[1..] == more;
    FindFirst(a, AttrsText(more), a.name);
  }
}
