/** Parsing git's output and showing the result. */
module Diff {
  import opened Basics
  import opened Whitespace
  import opened Normaliser

  datatype LineMode = Unchanged | Added | Removed | Metadata

  datatype Line = Line(content: Text, mode: LineMode)

  datatype Diff = Diff(lines: seq<Line>)

  // ---- bufio.Scanner with ScanLines ----

  /** A trailing carriage return is dropped. */
  function DropCR(l: Text): Text {
    if l != [] && l[|l| - 1] == '\r' then l[..|l| - 1] else l
  }

  function ScanLines(s: Text): seq<Text> {
    var n := Lead(InLine, s);
    if s == [] then []
    else if n == |s| then [DropCR(s)]
    else [DropCR(s[..n])] + ScanLines(s[n + 1..])
  }

  /**
    The scanner's buffer starts at 4096 bytes and grows to the length of its input,
    so it is too small only for a long input that is one unfinished line.
   */
  predicate TooLong(raw: Text) {
    |raw| >= 4096 && Lead(InLine, raw) == |raw|
  }

  // ---- the filter and classifier ----

  predicate Hex(c: char) {
    'A' <= c <= 'F' || 'a' <= c <= 'f' || '0' <= c <= '9'
  }

  predicate Digit(c: char) {
    '0' <= c <= '9'
  }

  /** p+ at the start of s; what is left. */
  function AfterSome(p: char -> bool, s: Text): Option<Text> {
    if Lead(p, s) > 0 then Some(s[Lead(p, s)..]) else None
  }

  function AfterText(t: Text, s: Text): Option<Text> {
    if t <= s then Some(s[|t|..]) else None
  }

  predicate IndexMode(l: Text) {
    match AfterText(" ", l)
    case None => false
    case Some(rest) => AfterSome(Digit, rest) == Some([])
  }

  predicate IndexHash(l: Text) {
    match AfterSome(Hex, l)
    case None => false
    case Some(rest) => IndexMode(rest)
  }

  predicate IndexDots(l: Text) {
    match AfterText("..", l)
    case None => false
    case Some(rest) => IndexHash(rest)
  }

  predicate IndexHashes(l: Text) {
    match AfterSome(Hex, l)
    case None => false
    case Some(rest) => IndexDots(rest)
  }

  /** ^index [A-Fa-f0-9]+\.\.[A-Fa-f0-9]+ [0-9]+$ : each part ends where the next must begin. */
  predicate IndexLine(l: Text) {
    match AfterText("index ", l)
    case None => false
    case Some(rest) => IndexHashes(rest)
  }

  /** The line for the diff, or nothing for one of git's header lines. */
  function Classified(l: Text): Option<Line> {
    if "diff --git" <= l then None
    else if IndexLine(l) then None
    else if "---" <= l then None
    else if "+++" <= l then None
    else if "@@" <= l then Some(Line(l, Metadata))
    else if "-" <= l then Some(Line(l, Removed))
    else if "+" <= l then Some(Line(l, Added))
    else Some(Line(l, Unchanged))
  }

  /** A line's contribution to the diff. */
  function Contributed(l: Text): seq<Line> {
    match Classified(l)
    case Some(c) => [c]
    case None => []
  }

  function AllClassified(ls: seq<Text>): seq<Line> {
    if ls == [] then []
    else Contributed(ls[0]) + AllClassified(ls[1..])
  }

  function Parsed(raw: Text): Option<Diff> {
    if TooLong(raw) then None else Some(Diff(AllClassified(ScanLines(raw))))
  }

  /** The parser fails only on 4096 runes or more without a newline. */
  lemma ParsedIff(raw: Text)
    ensures Parsed(raw).None? <==> |raw| >= 4096 && '\n' !in raw
  {
    var n := Lead(InLine, raw);
    if n < |raw| {
      assert raw[n] in raw;
    }
  }

  /** The input after its first line. */
  function NextLines(s: Text): (r: Text)
    requires s != []
    ensures |r| < |s|
  {
    var n := Lead(InLine, s);
    if n == |s| then [] else s[n + 1..]
  }

  lemma ScanStep(s: Text)
    requires s != []
    ensures ScanLines(s) == [DropCR(s[..Lead(InLine, s)])] + ScanLines(NextLines(s))
  {
    assert s[..|s|] == s;
  }

  lemma ClassifyStep(l: Text, ls: seq<Text>)
    ensures AllClassified([l] + ls) == Contributed(l) + AllClassified(ls)
  {
    assert ([l] + ls)[1..] == ls;
  }

  /** The lines found so far and those still to come. */
  ghost function Eventually(diff: seq<Line>, rest: Text): seq<Line> {
    diff + AllClassified(ScanLines(rest))
  }

  lemma EventuallyMore(diff: seq<Line>, l: Text, ls: seq<Text>)
    ensures (diff + Contributed(l)) + AllClassified(ls) == diff + AllClassified([l] + ls)
  {
    ClassifyStep(l, ls);
    Associate(diff, Contributed(l), AllClassified(ls));
  }

  lemma EventuallyStep(diff: seq<Line>, rest: Text)
    requires rest != []
    ensures Eventually(diff + Contributed(DropCR(rest[..Lead(InLine, rest)])), NextLines(rest))
         == Eventually(diff, rest)
  {
    ScanStep(rest);
    EventuallyMore(diff, DropCR(rest[..Lead(InLine, rest)]), ScanLines(NextLines(rest)));
  }

  lemma EventuallyEnds(diff: seq<Line>, raw: Text)
    ensures Eventually(diff, []) == diff
    ensures Eventually([], raw) == AllClassified(ScanLines(raw))
  {
    assert ScanLines([]) == [];
  }

  /** The loop of GenerateDiff over git's output. */
  method GenerateDiff(raw: Text) returns (r: Option<Diff>)
    ensures r == Parsed(raw)
  {
    if TooLong(raw) {
      return None;
    }
    var diff: seq<Line> := [];
    var rest := raw;
    while rest != []
      invariant Eventually(diff, rest) == Eventually([], raw)
      decreases |rest|
    {
      var text := DropCR(rest[..Lead(InLine, rest)]);
      EventuallyStep(diff, rest);
      diff := diff + Contributed(text);
      rest := NextLines(rest);
    }
    EventuallyEnds(diff, raw);
    return Some(Diff(diff));
  }

  // ---- what git prints ----

  datatype Edit = Edit(mode: LineMode, text: Text)

  datatype Hunk = Hunk(header: Text, edits: seq<Edit>)

  datatype Header = Header(paths: Text, fromHash: Text, toHash: Text, fileMode: Text, minus: Text, plus: Text)

  ghost predicate ValidHeader(h: Header) {
    && All(InLine, h.paths) && All(InLine, h.minus) && All(InLine, h.plus)
    && h.fromHash != [] && All(Hex, h.fromHash)
    && h.toHash != [] && All(Hex, h.toHash)
    && h.fileMode != [] && All(Digit, h.fileMode)
  }

  function Mark(mode: LineMode): Text {
    match mode
    case Unchanged => " "
    case Added => "+"
    case Removed => "-"
    case Metadata => "@@"
  }

  predicate EndsInCR(t: Text) {
    t != [] && t[|t| - 1] == '\r'
  }

  ghost predicate ValidHunk(h: Hunk) {
    && All(InLine, h.header) && !EndsInCR(h.header)
    && forall e <- h.edits :: !e.mode.Metadata? && All(InLine, e.text)
  }

  function IndexText(h: Header): Text {
    "index " + (h.fromHash + (".." + (h.toHash + (" " + h.fileMode))))
  }

  function WithHeader(h: Header, ls: seq<Text>): seq<Text> {
    ["diff --git" + h.paths] + ([IndexText(h)] + (["---" + h.minus] + (["+++" + h.plus] + ls)))
  }

  function EditLine(e: Edit): Text {
    Mark(e.mode) + e.text
  }

  function EditLines(es: seq<Edit>): seq<Text> {
    if es == [] then [] else [EditLine(es[0])] + EditLines(es[1..])
  }

  function HunkLines(hs: seq<Hunk>): seq<Text> {
    if hs == [] then []
    else ["@@" + hs[0].header] + (EditLines(hs[0].edits) + HunkLines(hs[1..]))
  }

  /** Every line ends in a newline. */
  function Print(ls: seq<Text>): Text {
    if ls == [] then [] else ls[0] + "\n" + Print(ls[1..])
  }

  function Printed(h: Header, hs: seq<Hunk>): Text {
    Print(WithHeader(h, HunkLines(hs)))
  }

  // ---- scanning printed lines ----

  ghost predicate AllInLine(ls: seq<Text>) {
    forall k | 0 <= k < |ls| :: All(InLine, ls[k])
  }

  lemma InLineFirst(l: Text, ls: seq<Text>)
    requires All(InLine, l) && AllInLine(ls)
    ensures AllInLine([l] + ls)
  {
  }

  function DropCRs(ls: seq<Text>): seq<Text> {
    if ls == [] then [] else [DropCR(ls[0])] + DropCRs(ls[1..])
  }

  lemma ScanPrintedLine(l: Text, rest: Text)
    requires All(InLine, l)
    ensures ScanLines(l + "\n" + rest) == [DropCR(l)] + ScanLines(rest)
  {
    var s := l + "\n" + rest;
    LeadIs(InLine, s, |l|);
    assert s[..|l|] == l && s[|l| + 1..] == rest;
  }

  lemma {:induction false} ScanPrinted(ls: seq<Text>)
    requires AllInLine(ls)
    ensures ScanLines(Print(ls)) == DropCRs(ls)
  {
    if ls != [] {
      ScanPrinted(ls[1..]);
      assert All(InLine, ls[0]);
      ScanPrintedLine(ls[0], Print(ls[1..]));
    }
  }

  lemma PrintedNotTooLong(ls: seq<Text>)
    ensures !TooLong(Print(ls))
  {
    if ls != [] {
      assert !InLine(Print(ls)[|ls[0]|]);
    }
  }

  // ---- header lines disappear ----

  lemma AfterSomeSkips(p: char -> bool, a: Text, b: Text)
    requires a != [] && All(p, a) && (b == [] || !p(b[0]))
    ensures AfterSome(p, a + b) == Some(b)
  {
    LeadIs(p, a + b, |a|);
    assert (a + b)[|a|..] == b;
  }

  lemma AfterTextSkips(t: Text, b: Text)
    ensures AfterText(t, t + b) == Some(b)
  {
    assert (t + b)[|t|..] == b;
  }

  lemma IsIndexMode(mode: Text)
    requires mode != [] && All(Digit, mode)
    ensures IndexMode(" " + mode)
  {
    AfterTextSkips(" ", mode);
    AfterSomeSkips(Digit, mode, []);
    assert mode + [] == mode;
  }

  lemma IsIndexHash(hash: Text, rest: Text)
    requires hash != [] && All(Hex, hash) && IndexMode(" " + rest)
    ensures IndexHash(hash + (" " + rest))
  {
    AfterSomeSkips(Hex, hash, " " + rest);
  }

  lemma IsIndexDots(rest: Text)
    requires IndexHash(rest)
    ensures IndexDots(".." + rest)
  {
    AfterTextSkips("..", rest);
  }

  lemma IsIndexHashes(hash: Text, rest: Text)
    requires hash != [] && All(Hex, hash) && IndexDots(".." + rest)
    ensures IndexHashes(hash + (".." + rest))
  {
    AfterSomeSkips(Hex, hash, ".." + rest);
  }

  lemma IsIndex(rest: Text)
    requires IndexHashes(rest)
    ensures IndexLine("index " + rest)
  {
    AfterTextSkips("index ", rest);
  }

  lemma EndOfAppend(a: Text, b: Text)
    requires b != [] && !EndsInCR(b)
    ensures a + b != [] && !EndsInCR(a + b)
  {
    assert (a + b)[|a + b| - 1] == b[|b| - 1];
  }

  lemma IndexEnd(h: Header)
    requires ValidHeader(h)
    ensures !EndsInCR(IndexText(h))
  {
    assert Digit(h.fileMode[|h.fileMode| - 1]);
    EndOfAppend(" ", h.fileMode);
    EndOfAppend(h.toHash, " " + h.fileMode);
    EndOfAppend("..", h.toHash + (" " + h.fileMode));
    EndOfAppend(h.fromHash, ".." + (h.toHash + (" " + h.fileMode)));
    EndOfAppend("index ", h.fromHash + (".." + (h.toHash + (" " + h.fileMode))));
  }

  lemma InLineAppend(a: Text, b: Text)
    ensures All(InLine, a + b) <==> All(InLine, a) && All(InLine, b)
  {
    if All(InLine, a + b) {
      forall k | 0 <= k < |a| ensures InLine(a[k]) { assert (a + b)[k] == a[k]; }
      forall k | 0 <= k < |b| ensures InLine(b[k]) { assert (a + b)[|a| + k] == b[k]; }
    }
  }

  lemma InLineParts(h: Header)
    requires ValidHeader(h)
    ensures All(InLine, IndexText(h))
  {
    InLineAppend(" ", h.fileMode);
    InLineAppend(h.toHash, " " + h.fileMode);
    InLineAppend("..", h.toHash + (" " + h.fileMode));
    InLineAppend(h.fromHash, ".." + (h.toHash + (" " + h.fileMode)));
    InLineAppend("index ", h.fromHash + (".." + (h.toHash + (" " + h.fileMode))));
  }

  lemma IsIndexLine(h: Header)
    requires ValidHeader(h)
    ensures IndexLine(IndexText(h)) && !EndsInCR(IndexText(h)) && All(InLine, IndexText(h))
  {
    IsIndexMode(h.fileMode);
    IsIndexHash(h.toHash, h.fileMode);
    IsIndexDots(h.toHash + (" " + h.fileMode));
    IsIndexHashes(h.fromHash, h.toHash + (" " + h.fileMode));
    IsIndex(h.fromHash + (".." + (h.toHash + (" " + h.fileMode))));
    IndexEnd(h);
    InLineParts(h);
  }

  /** A header line is dropped, with or without a carriage return at its end. */
  lemma HeaderLineFiltered(mark: Text, rest: Text)
    requires mark == "diff --git" || mark == "---" || mark == "+++"
    ensures Classified(DropCR(mark + rest)) == None
  {
    assert mark[|mark| - 1] != '\r';
    assert mark <= DropCR(mark + rest);
    if mark == "+++" {
      assert DropCR(mark + rest)[0] == '+';
    }
  }

  lemma FilteredFirst(l: Text, ls: seq<Text>)
    ensures AllClassified(DropCRs([l] + ls))
         == Contributed(DropCR(l)) + AllClassified(DropCRs(ls))
  {
    assert ([l] + ls)[1..] == ls;
    assert DropCRs([l] + ls) == [DropCR(l)] + DropCRs(ls);
    ClassifyStep(DropCR(l), DropCRs(ls));
  }

  lemma HeaderFiltered(h: Header, ls: seq<Text>)
    requires ValidHeader(h)
    ensures AllClassified(DropCRs(WithHeader(h, ls))) == AllClassified(DropCRs(ls))
  {
    var l3 := ["+++" + h.plus] + ls;
    var l2 := ["---" + h.minus] + l3;
    var l1 := [IndexText(h)] + l2;
    HeaderLineFiltered("diff --git", h.paths);
    HeaderLineFiltered("---", h.minus);
    HeaderLineFiltered("+++", h.plus);
    IsIndexLine(h);
    FilteredFirst("diff --git" + h.paths, l1);
    FilteredFirst(IndexText(h), l2);
    FilteredFirst("---" + h.minus, l3);
    FilteredFirst("+++" + h.plus, ls);
  }

  // ---- what the parser makes of printed hunks ----

  /** An edit whose printed line looks like a header line of git's. */
  predicate Swallowed(e: Edit) {
    (e.mode.Removed? && "--" <= e.text) || (e.mode.Added? && "++" <= e.text)
  }

  /** The line an edit should appear as. */
  function LineOf(e: Edit): Line {
    Line(EditLine(e), e.mode)
  }

  function LinesOf(es: seq<Edit>): seq<Line> {
    if es == [] then [] else [LineOf(es[0])] + LinesOf(es[1..])
  }

  /** Hunks shown in full: each header, then its edits, in order. */
  function Shown(hs: seq<Hunk>): seq<Line> {
    if hs == [] then []
    else [Line("@@" + hs[0].header, Metadata)] + (LinesOf(hs[0].edits) + Shown(hs[1..]))
  }

  /** What is left of an edit: nothing when swallowed, else its line without a final CR. */
  function Survivor(e: Edit): seq<Line> {
    if Swallowed(e) then [] else [Line(DropCR(EditLine(e)), e.mode)]
  }

  function Survivors(es: seq<Edit>): seq<Line> {
    if es == [] then [] else Survivor(es[0]) + Survivors(es[1..])
  }

  function ShownByParser(hs: seq<Hunk>): seq<Line> {
    if hs == [] then []
    else [Line("@@" + hs[0].header, Metadata)] + (Survivors(hs[0].edits) + ShownByParser(hs[1..]))
  }

  /** A line that starts with m looks like a header line if its text starts with two more. */
  lemma TripleMark(m: char, t: Text)
    requires m != '\r'
    ensures [m, m] <= t <==> [m, m, m] <= DropCR([m] + t)
  {
    var l := [m] + t;
    var d := DropCR(l);
    if [m, m] <= t {
      assert t[0] == m && t[1] == m;
      assert l[0] == m && l[1] == m && l[2] == m;
      assert |d| >= 3;
      assert d[..3] == [m, m, m];
    }
    if [m, m, m] <= d {
      assert d[1] == m && d[2] == m;
      assert l[1] == t[0] && l[2] == t[1];
      assert t[..2] == [m, m];
    }
  }

  lemma MarkedLine(m: char, t: Text)
    requires m != '\r'
    ensures DropCR([m] + t) != [] && DropCR([m] + t)[0] == m
  {
  }

  lemma ClassifyMarked(d: Text, m: char)
    requires d != [] && d[0] == m && (m == '-' || m == '+')
    ensures Classified(d)
         == if [m, m, m] <= d then None else Some(Line(d, if m == '-' then Removed else Added))
  {
    var marks := [m, m, m];
    if marks <= d {
      assert d[..3] == marks;
    }
  }

  lemma ClassifyUnmarked(d: Text)
    requires d != [] && d[0] == ' '
    ensures Classified(d) == Some(Line(d, Unchanged))
  {
  }

  lemma ClassifyEdit(e: Edit)
    requires !e.mode.Metadata?
    ensures Contributed(DropCR(EditLine(e))) == Survivor(e)
  {
    var d := DropCR(EditLine(e));
    match e.mode {
      case Removed =>
        MarkedLine('-', e.text);
        TripleMark('-', e.text);
        ClassifyMarked(d, '-');
      case Added =>
        MarkedLine('+', e.text);
        TripleMark('+', e.text);
        ClassifyMarked(d, '+');
      case Unchanged =>
        MarkedLine(' ', e.text);
        ClassifyUnmarked(d);
    }
  }

  lemma ClassifyFirstEdit(e: Edit, es: seq<Text>, ls: seq<Text>)
    requires !e.mode.Metadata?
    ensures AllClassified(DropCRs([EditLine(e)] + es + ls)) == Survivor(e) + AllClassified(DropCRs(es + ls))
  {
    var l := EditLine(e);
    assert [l] + es + ls == [l] + (es + ls);
    FilteredFirst(l, es + ls);
    ClassifyEdit(e);
  }

  lemma {:induction false} ClassifyEdits(es: seq<Edit>, ls: seq<Text>)
    requires forall e <- es :: !e.mode.Metadata?
    ensures AllClassified(DropCRs(EditLines(es) + ls)) == Survivors(es) + AllClassified(DropCRs(ls))
  {
    if es == [] {
      assert EditLines(es) + ls == ls;
    } else {
      assert !es[0].mode.Metadata?;
      ClassifyEdits(es[1..], ls);
      ClassifyFirstEdit(es[0], EditLines(es[1..]), ls);
    }
  }

  lemma ClassifyHunkHeader(header: Text)
    requires !EndsInCR(header)
    ensures Classified(DropCR("@@" + header)) == Some(Line("@@" + header, Metadata))
  {
    var l := "@@" + header;
    if header != [] {
      assert l[|l| - 1] == header[|header| - 1];
    }
    assert l[0] == '@';
  }

  lemma {:induction false} ClassifyHunks(hs: seq<Hunk>)
    requires forall h <- hs :: ValidHunk(h)
    ensures AllClassified(DropCRs(HunkLines(hs))) == ShownByParser(hs)
  {
    if hs != [] {
      assert ValidHunk(hs[0]);
      ClassifyHunks(hs[1..]);
      ClassifyEdits(hs[0].edits, HunkLines(hs[1..]));
      ClassifyHunkHeader(hs[0].header);
      FilteredFirst("@@" + hs[0].header, EditLines(hs[0].edits) + HunkLines(hs[1..]));
    }
  }

  lemma {:induction false} EditLinesInLine(es: seq<Edit>)
    requires forall e <- es :: All(InLine, e.text)
    ensures AllInLine(EditLines(es))
  {
    if es != [] {
      assert All(InLine, es[0].text);
      EditLinesInLine(es[1..]);
      InLineAppend(Mark(es[0].mode), es[0].text);
    }
  }

  lemma {:induction false} HunkLinesInLine(hs: seq<Hunk>)
    requires forall h <- hs :: ValidHunk(h)
    ensures AllInLine(HunkLines(hs))
  {
    if hs != [] {
      assert ValidHunk(hs[0]);
      HunkLinesInLine(hs[1..]);
      EditLinesInLine(hs[0].edits);
      InLineAppend("@@", hs[0].header);
    }
  }

  lemma FourInLine(a: Text, b: Text, c: Text, d: Text, ls: seq<Text>)
    requires All(InLine, a) && All(InLine, b) && All(InLine, c) && All(InLine, d) && AllInLine(ls)
    ensures AllInLine([a] + ([b] + ([c] + ([d] + ls))))
  {
    InLineFirst(d, ls);
    InLineFirst(c, [d] + ls);
    InLineFirst(b, [c] + ([d] + ls));
  }

  lemma PrintedInLine(h: Header, hs: seq<Hunk>)
    requires ValidHeader(h) && forall k <- hs :: ValidHunk(k)
    ensures AllInLine(WithHeader(h, HunkLines(hs)))
  {
    HunkLinesInLine(hs);
    InLineParts(h);
    InLineAppend("diff --git", h.paths);
    InLineAppend("---", h.minus);
    InLineAppend("+++", h.plus);
    FourInLine("diff --git" + h.paths, IndexText(h), "---" + h.minus, "+++" + h.plus, HunkLines(hs));
  }

  /**
    On any printed diff the parser drops the four header lines and shows the hunks,
    except for the edits it swallows and for carriage returns at line ends.
   */
  lemma ParsePrinted(h: Header, hs: seq<Hunk>)
    requires ValidHeader(h) && forall k <- hs :: ValidHunk(k)
    ensures Parsed(Printed(h, hs)) == Some(Diff(ShownByParser(hs)))
  {
    var ls := WithHeader(h, HunkLines(hs));
    PrintedInLine(h, hs);
    ScanPrinted(ls);
    PrintedNotTooLong(ls);
    HeaderFiltered(h, HunkLines(hs));
    ClassifyHunks(hs);
  }

  // ---- when nothing is lost ----

  predicate Safe(e: Edit) {
    !Swallowed(e) && !EndsInCR(e.text)
  }

  predicate AllSafe(hs: seq<Hunk>) {
    forall h <- hs :: forall e <- h.edits :: Safe(e)
  }

  lemma SurvivorIff(e: Edit)
    requires !e.mode.Metadata?
    ensures |Survivor(e)| <= 1
    ensures Survivor(e) == [LineOf(e)] <==> Safe(e)
  {
    var l := EditLine(e);
    if e.text != [] {
      assert l[|l| - 1] == e.text[|e.text| - 1];
    }
  }

  lemma {:induction false} SurvivorsFewer(es: seq<Edit>)
    ensures |Survivors(es)| <= |es| == |LinesOf(es)|
  {
    if es != [] {
      SurvivorsFewer(es[1..]);
    }
  }

  lemma {:induction false} ShownFewer(hs: seq<Hunk>)
    ensures |ShownByParser(hs)| <= |Shown(hs)|
  {
    if hs != [] {
      ShownFewer(hs[1..]);
      SurvivorsFewer(hs[0].edits);
    }
  }

  /** Two pairs of lists, the left one never longer, agree when joined only if they agree one by one. */
  lemma SplitEqual<T>(a: seq<T>, b: seq<T>, a': seq<T>, b': seq<T>)
    requires |a| <= |a'| && |b| <= |b'|
    ensures a + b == a' + b' <==> a == a' && b == b'
  {
    if a + b == a' + b' {
      assert |a| == |a'| && |b| == |b'|;
      assert a == (a + b)[..|a|] && a' == (a' + b')[..|a'|];
      assert b == (a + b)[|a|..] && b' == (a' + b')[|a'|..];
    }
  }

  lemma {:induction false} SurvivorsIff(es: seq<Edit>)
    requires forall e <- es :: !e.mode.Metadata?
    ensures Survivors(es) == LinesOf(es) <==> forall e <- es :: Safe(e)
  {
    if es != [] {
      assert !es[0].mode.Metadata?;
      SurvivorsIff(es[1..]);
      SurvivorIff(es[0]);
      SurvivorsFewer(es[1..]);
      SplitEqual(Survivor(es[0]), Survivors(es[1..]), [LineOf(es[0])], LinesOf(es[1..]));
      assert forall e :: e in es <==> e == es[0] || e in es[1..];
    }
  }

  lemma {:induction false} ShownIff(hs: seq<Hunk>)
    requires forall h <- hs :: ValidHunk(h)
    ensures ShownByParser(hs) == Shown(hs) <==> AllSafe(hs)
  {
    if hs != [] {
      assert ValidHunk(hs[0]);
      ShownIff(hs[1..]);
      SurvivorsIff(hs[0].edits);
      SurvivorsFewer(hs[0].edits);
      ShownFewer(hs[1..]);
      SplitEqual(Survivors(hs[0].edits), ShownByParser(hs[1..]), LinesOf(hs[0].edits), Shown(hs[1..]));
      var head := [Line("@@" + hs[0].header, Metadata)];
      SplitEqual(head, Survivors(hs[0].edits) + ShownByParser(hs[1..]), head, LinesOf(hs[0].edits) + Shown(hs[1..]));
      assert forall h :: h in hs <==> h == hs[0] || h in hs[1..];
    }
  }

  /**
    The parser recovers every line of the hunks, with its mode and in order, if and
    only if no removed line starts with --, no added line with ++, and none ends in
    a carriage return.
   */
  lemma ParseRecoversIff(h: Header, hs: seq<Hunk>)
    requires ValidHeader(h) && forall k <- hs :: ValidHunk(k)
    ensures Parsed(Printed(h, hs)) == Some(Diff(Shown(hs))) <==> AllSafe(hs)
  {
    ParsePrinted(h, hs);
    ShownIff(hs);
  }

  // ---- the two sides of a hunk ----

  /** The text of the lines of one side, without their marks. */
  function Side(ls: seq<Line>, other: LineMode): seq<Text> {
    if ls == [] then []
    else
      var l := ls[0];
      (if l.mode.Metadata? || l.mode == other || l.content == [] then [] else [l.content[1..]]) + Side(ls[1..], other)
  }

  function EditSide(es: seq<Edit>, other: LineMode): seq<Text> {
    if es == [] then [] else (if es[0].mode == other then [] else [es[0].text]) + EditSide(es[1..], other)
  }

  function HunkSide(hs: seq<Hunk>, other: LineMode): seq<Text> {
    if hs == [] then [] else EditSide(hs[0].edits, other) + HunkSide(hs[1..], other)
  }

  lemma {:induction false} SideAppend(xs: seq<Line>, ys: seq<Line>, other: LineMode)
    ensures Side(xs + ys, other) == Side(xs, other) + Side(ys, other)
  {
    if xs == [] {
      assert xs + ys == ys;
    } else {
      assert (xs + ys)[1..] == xs[1..] + ys;
      SideAppend(xs[1..], ys, other);
    }
  }

  lemma {:induction false} SideOfEdits(es: seq<Edit>, other: LineMode)
    requires forall e <- es :: !e.mode.Metadata?
    ensures Side(LinesOf(es), other) == EditSide(es, other)
  {
    if es != [] {
      assert !es[0].mode.Metadata?;
      SideOfEdits(es[1..], other);
      assert EditLine(es[0])[1..] == es[0].text;
      assert LinesOf(es)[1..] == LinesOf(es[1..]);
    }
  }

  lemma {:induction false} SideOfShown(hs: seq<Hunk>, other: LineMode)
    requires forall h <- hs :: ValidHunk(h)
    ensures Side(Shown(hs), other) == HunkSide(hs, other)
  {
    if hs != [] {
      assert ValidHunk(hs[0]);
      SideOfShown(hs[1..], other);
      SideOfEdits(hs[0].edits, other);
      SideAppend(LinesOf(hs[0].edits), Shown(hs[1..]), other);
      assert Shown(hs)[1..] == LinesOf(hs[0].edits) + Shown(hs[1..]);
    }
  }

  /**
    For safe hunks the unchanged and removed lines of the result are the old side of
    the hunks, the unchanged and added lines the new side.
   */
  lemma SidesRecovered(h: Header, hs: seq<Hunk>)
    requires ValidHeader(h) && (forall k <- hs :: ValidHunk(k)) && AllSafe(hs)
    ensures var d := Parsed(Printed(h, hs));
            && d.Some?
            && Side(d.value.lines, Added) == HunkSide(hs, Added)
            && Side(d.value.lines, Removed) == HunkSide(hs, Removed)
  {
    ParseRecoversIff(h, hs);
    SideOfShown(hs, Added);
    SideOfShown(hs, Removed);
  }

  // ---- a case in which a line is lost ----

  lemma OneShown(header: Text, e: Edit)
    ensures ShownByParser([Hunk(header, [e])]) == [Line("@@" + header, Metadata)] + Survivor(e)
    ensures Shown([Hunk(header, [e])]) == [Line("@@" + header, Metadata), LineOf(e)]
  {
    var es, hs := [e], [Hunk(header, [e])];
    assert es[1..] == [] && hs[1..] == [];
    assert Survivors(es) == Survivor(e) && LinesOf(es) == [LineOf(e)];
    assert Survivor(e) + [] == Survivor(e) && [LineOf(e)] + [] == [LineOf(e)];
  }

  /** A hunk of one swallowed edit is shown as its header alone. */
  lemma SwallowedLineLost(h: Header, header: Text, e: Edit)
    requires ValidHeader(h) && ValidHunk(Hunk(header, [e])) && Swallowed(e)
    ensures Parsed(Printed(h, [Hunk(header, [e])])) == Some(Diff([Line("@@" + header, Metadata)]))
    ensures Shown([Hunk(header, [e])]) == [Line("@@" + header, Metadata), LineOf(e)]
  {
    ParsePrinted(h, [Hunk(header, [e])]);
    OneShown(header, e);
    var first := [Line("@@" + header, Metadata)];
    assert Survivor(e) == [] && first + [] == first;
  }

  /** The hunk that removes the line `-- x`. */
  function DashedHunk(): Hunk {
    Hunk(" -1 +0,0 @@", [Edit(Removed, "-- x")])
  }

  /** Whatever the header, its removed line is not shown. */
  lemma DashedLineLost(h: Header)
    requires ValidHeader(h)
    ensures ValidHunk(DashedHunk())
    ensures Parsed(Printed(h, [DashedHunk()])) == Some(Diff([Shown([DashedHunk()])[0]]))
    ensures |Shown([DashedHunk()])| == 2 && Shown([DashedHunk()])[1].mode == Removed
  {
    var hunk := DashedHunk();
    var e := hunk.edits[0];
    assert hunk.edits == [e];
    assert "--" <= e.text;
    SwallowedLineLost(h, hunk.header, e);
  }
}
