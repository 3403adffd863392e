/**
  The two regular expressions that internal/watch applies at the end of
  Process, each with a context-free scanner over the rest of the text.
 */
module Whitespace {
  import opened Basics
  import opened Regex

  predicate IsNewline(c: char) {
    c == '\n'
  }

  /** Go's \s: tab, newline, form feed, carriage return, space. */
  predicate IsSpace(c: char) {
    c == '\t' || c == '\n' || c == '\U{000C}' || c == '\r' || c == ' '
  }

  /** Unicode category Zs. */
  predicate IsZs(c: char) {
    c == ' ' || c == '\U{00A0}' || c == '\U{1680}' || '\U{2000}' <= c <= '\U{200A}'
    || c == '\U{202F}' || c == '\U{205F}' || c == '\U{3000}'
  }

  /** [\s\p{Zs}] */
  predicate IsBlank(c: char) {
    IsSpace(c) || IsZs(c)
  }

  /** By code point. */
  lemma BlankRunes(c: char)
    ensures IsSpace(c) <==> c as int in {9, 10, 12, 13, 32}
    ensures IsBlank(c) <==>
              c as int in {9, 10, 12, 13, 32, 0xA0, 0x1680, 0x202F, 0x205F, 0x3000} || 0x2000 <= c as int <= 0x200A
  {
  }

  /** (?s)\n\s*\n */
  function EmptyLineRegex(): Re {
    Cat(Class(IsNewline), Cat(Star(Class(IsSpace)), Class(IsNewline)))
  }

  /** (?m)^[\s\p{Zs}]+|[\s\p{Zs}]+$ */
  function TrimRegex(): Re {
    Alt(Cat(BeginLine, Plus(Class(IsBlank))), Cat(Plus(Class(IsBlank)), EndLine))
  }

  // ---- runs ----

  /** Length of the longest prefix whose runes satisfy p. */
  function Lead(p: char -> bool, s: Text): (n: nat)
    ensures n <= |s|
    ensures n < |s| ==> !p(s[n])
    ensures forall k | 0 <= k < n :: p(s[k])
  {
    if s != [] && p(s[0]) then 1 + Lead(p, s[1..]) else 0
  }

  /** Position of the last newline of s[..n]. */
  function LastNewline(s: Text, n: nat): (r: Option<nat>)
    requires n <= |s|
    ensures r.Some? ==> r.value < n && s[r.value] == '\n'
    ensures forall k | (if r.Some? then r.value + 1 else 0) <= k < n :: s[k] != '\n'
  {
    if n == 0 then None
    else if s[n - 1] == '\n' then Some(n - 1)
    else LastNewline(s, n - 1)
  }

  // ---- the empty-line expression ----

  /** What follows a newline, without the \s-run's part up to its last newline. */
  function AfterEmptyLines(t: Text): (r: Text)
    ensures |r| <= |t|
  {
    match LastNewline(t, Lead(IsSpace, t))
    case Some(q) => t[q + 1..]
    case None => t
  }

  /**
    At a newline, \n\s*\n takes everything up to the last newline of the \s-run
    that follows; elsewhere nothing matches.
   */
  function RemoveEmptyLines(s: Text): Text {
    if s == [] then []
    else [s[0]] + RemoveEmptyLines(if s[0] == '\n' then AfterEmptyLines(s[1..]) else s[1..])
  }

  function Shift(r: Option<nat>, d: nat): Option<nat> {
    match r
    case Some(q) => Some(q + d)
    case None => None
  }

  lemma {:induction false} LastNewlineTail(s: Text, n: nat)
    requires 1 <= n <= |s|
    ensures LastNewline(s, n)
         == match LastNewline(s[1..], n - 1)
            case Some(q) => Some(q + 1)
            case None => if s[0] == '\n' then Some(0) else None
  {
    if n > 1 && s[n - 1] != '\n' {
      LastNewlineTail(s, n - 1);
    }
  }

  /** The end of the match of the empty-line expression at i, if there is one. */
  function EmptyLineEnd(s: Text, i: nat): Option<nat>
    requires i <= |s|
  {
    if i < |s| && s[i] == '\n'
    then Shift(LastNewline(s[i + 1..], Lead(IsSpace, s[i + 1..])), i + 2)
    else None
  }

  lemma FirstOfAppend(a: seq<nat>, b: seq<nat>)
    ensures FirstOf(a + b) == if a == [] then FirstOf(b) else FirstOf(a)
  {
  }

  /** One more rune of a \s-run in front. */
  lemma SpaceMore(s: Text, later: seq<nat>, i: nat)
    requires i < |s| && IsSpace(s[i])
    requires FirstOf(later) == Shift(LastNewline(s[i + 1..], Lead(IsSpace, s[i + 1..])), i + 2)
    ensures FirstOf(later + ClassAt(IsNewline, s, i)) == Shift(LastNewline(s[i..], Lead(IsSpace, s[i..])), i + 1)
  {
    var x, n := s[i..], Lead(IsSpace, s[i..]);
    assert x[1..] == s[i + 1..] && x[0] == s[i];
    assert n == 1 + Lead(IsSpace, x[1..]);
    LastNewlineTail(x, n);
    FirstOfAppend(later, ClassAt(IsNewline, s, i));
  }

  /** The preferred end of \s*\n at i: just after the last newline of the \s-run at i. */
  lemma {:induction false} SpacesThenNewline(s: Text, nl: Table, t: Table, i: nat)
    requires |nl| == |t| == |s| + 1 && i <= |s|
    requires forall j | 0 <= j <= |s| :: StarStep(IsSpace, s, nl, t, j) && nl[j] == ClassAt(IsNewline, s, j)
    ensures FirstOf(t[i]) == Shift(LastNewline(s[i..], Lead(IsSpace, s[i..])), i + 1)
    decreases |s| - i
  {
    assert StarStep(IsSpace, s, nl, t, i) && nl[i] == ClassAt(IsNewline, s, i);
    if i < |s| && IsSpace(s[i]) {
      SpacesThenNewline(s, nl, t, i + 1);
      SpaceMore(s, t[i + 1], i);
    }
  }

  lemma SpacesThenNewlineWays(s: Text, i: nat)
    requires i <= |s|
    ensures FirstOf(CatWays(StarWays(ClassWays(IsSpace, s)), ClassWays(IsNewline, s))[i])
         == Shift(LastNewline(s[i..], Lead(IsSpace, s[i..])), i + 1)
  {
    var nl := ClassWays(IsNewline, s);
    var t := CatWays(StarWays(ClassWays(IsSpace, s)), nl);
    forall j | 0 <= j <= |s| ensures StarStep(IsSpace, s, nl, t, j) && nl[j] == ClassAt(IsNewline, s, j) {
      StarThen(IsSpace, s, nl, j);
      ClassWaysAt(IsNewline, s, j);
    }
    SpacesThenNewline(s, nl, t, i);
  }

  lemma EmptyLineTable(s: Text)
    ensures Ways(EmptyLineRegex(), s)
         == CatWays(ClassWays(IsNewline, s), CatWays(StarWays(ClassWays(IsSpace, s)), ClassWays(IsNewline, s)))
  {
    var nl, spaces := Class(IsNewline), Star(Class(IsSpace));
    assert Ways(nl, s) == ClassWays(IsNewline, s);
    assert Ways(spaces, s) == StarWays(ClassWays(IsSpace, s));
    assert Ways(Cat(spaces, nl), s) == CatWays(Ways(spaces, s), Ways(nl, s));
  }

  lemma EmptyLineWays(s: Text, i: nat)
    requires i <= |s|
    ensures FirstOf(CatWays(ClassWays(IsNewline, s),
                            CatWays(StarWays(ClassWays(IsSpace, s)), ClassWays(IsNewline, s)))[i])
         == EmptyLineEnd(s, i)
  {
    ClassThen(IsNewline, s, CatWays(StarWays(ClassWays(IsSpace, s)), ClassWays(IsNewline, s)), i);
    if i < |s| && s[i] == '\n' {
      SpacesThenNewlineWays(s, i + 1);
    }
  }

  lemma EmptyLineMatches(s: Text)
    ensures var t := Ways(EmptyLineRegex(), s);
            forall i | 0 <= i <= |s| :: FirstOf(t[i]) == EmptyLineEnd(s, i)
  {
    EmptyLineTable(s);
    forall i | 0 <= i <= |s| ensures FirstOf(Ways(EmptyLineRegex(), s)[i]) == EmptyLineEnd(s, i) {
      EmptyLineWays(s, i);
    }
  }

  ghost predicate EmptyLineRow(t: Table, s: Text, k: nat)
    requires |t| == |s| + 1 && k <= |s|
  {
    FirstOf(t[k]) == EmptyLineEnd(s, k)
  }

  ghost predicate IsEmptyLineTable(t: Table, s: Text) {
    Proper(t) && |t| == |s| + 1 && forall k: nat {:trigger EmptyLineRow(t, s, k)} | k <= |s| :: EmptyLineRow(t, s, k)
  }

  ghost predicate MeansRemoved(s: Text, meaning: nat -> Text) {
    forall k: nat {:trigger RemoveEmptyLines(s[k..])} | k <= |s| :: meaning(k) == RemoveEmptyLines(s[k..])
  }

  lemma RemovedMatch(s: Text, i: nat, e: nat)
    requires i < |s| && EmptyLineEnd(s, i) == Some(e)
    ensures i < e <= |s| && RemoveEmptyLines(s[i..]) == "\n" + RemoveEmptyLines(s[e..])
  {
    assert s[i..][1..] == s[i + 1..];
    assert s[i + 1..][e - i - 1..] == s[e..];
  }

  lemma RemovedCopy(s: Text, i: nat)
    requires i < |s| && EmptyLineEnd(s, i) == None
    ensures RemoveEmptyLines(s[i..]) == [s[i]] + RemoveEmptyLines(s[i + 1..])
  {
    assert s[i..][1..] == s[i + 1..];
  }

  /** The next position: what holds there holds here. */
  lemma EmptyLineNext(t: Table, s: Text, i: nat, meaning: nat -> Text) returns (e: nat)
    requires IsEmptyLineTable(t, s) && MeansRemoved(s, meaning) && i < |s|
    ensures i < e <= |s|
    ensures Scan(t, s, e, "\n") == meaning(e) ==> Scan(t, s, i, "\n") == meaning(i)
  {
    assert EmptyLineRow(t, s, i);
    match EmptyLineEnd(s, i)
    case Some(m) =>
      e := m;
      RemovedMatch(s, i, e);
    case None =>
      e := i + 1;
      RemovedCopy(s, i);
  }

  lemma {:induction false} EmptyLineScan(t: Table, s: Text, i: nat, meaning: nat -> Text)
    requires IsEmptyLineTable(t, s) && MeansRemoved(s, meaning) && i <= |s|
    ensures Scan(t, s, i, "\n") == meaning(i)
    decreases |s| - i
  {
    if i == |s| {
      assert RemoveEmptyLines(s[i..]) == [];
    } else {
      var e := EmptyLineNext(t, s, i, meaning);
      EmptyLineScan(t, s, e, meaning);
    }
  }

  /** emptyLineRegex.ReplaceAll(body, "\n"), under Go's matching rules, is RemoveEmptyLines. */
  lemma EmptyLinePass(s: Text)
    ensures ReplaceAll(EmptyLineRegex(), s, "\n") == RemoveEmptyLines(s)
  {
    var t := Ways(EmptyLineRegex(), s);
    EmptyLineMatches(s);
    ReplaceFromIsScan(t, s, 0, "\n");
    forall k: nat | k <= |s| ensures EmptyLineRow(t, s, k) {
    }
    var meaning := (k: nat) => if k <= |s| then RemoveEmptyLines(s[k..]) else [];
    EmptyLineScan(t, s, 0, meaning);
    assert s[0..] == s;
  }

  // ---- the trim expression ----

  /**
    How much the trim expression takes from the start of s. At the beginning of a
    line, and where the run reaches the end of the text, the whole blank run; else
    up to, but not including, the run's last newline, if that is not nothing.
   */
  function TrimTake(s: Text, bol: bool): (r: Option<nat>)
    ensures r.Some? ==> 0 < r.value <= |s|
  {
    var n := Lead(IsBlank, s);
    if n == 0 then None
    else if bol || n == |s| then Some(n)
    else
      match LastNewline(s, n)
      case Some(q) => if q > 0 then Some(q) else None
      case None => None
  }

  /** Where the match of the trim expression at i ends, the line start being judged on the whole text. */
  function TrimEnd(s: Text, i: nat): (r: Option<nat>)
    requires i <= |s|
    ensures r.Some? ==> i < r.value <= |s|
  {
    Shift(TrimTake(s[i..], AtBeginLine(s, i)), i)
  }

  lemma LeadStep(s: Text, i: nat)
    requires i < |s| && IsBlank(s[i])
    ensures Lead(IsBlank, s[i..]) == 1 + Lead(IsBlank, s[i + 1..])
  {
    assert s[i..][1..] == s[i + 1..];
  }

  /** Row i of the table of p*: one more rune first, then stop here. */
  ghost predicate RunStep(s: Text, t: Table, i: nat)
    requires |t| == |s| + 1 && i <= |s|
  {
    t[i] == if i < |s| && IsBlank(s[i]) then t[i + 1] + [i] else [i]
  }

  /** The preferred end of p* at i is the end of the run. */
  lemma StarFirstHere(s: Text, t: Table, i: nat)
    requires |t| == |s| + 1 && i <= |s| && RunStep(s, t, i)
    requires i < |s| && IsBlank(s[i]) ==> FirstOf(t[i + 1]) == Some(i + 1 + Lead(IsBlank, s[i + 1..]))
    ensures FirstOf(t[i]) == Some(i + Lead(IsBlank, s[i..]))
  {
    if i < |s| && IsBlank(s[i]) {
      LeadStep(s, i);
    }
  }

  lemma {:induction false} StarFirst(s: Text, t: Table, i: nat)
    requires |t| == |s| + 1 && i <= |s|
    requires forall j | 0 <= j <= |s| :: RunStep(s, t, j)
    ensures FirstOf(t[i]) == Some(i + Lead(IsBlank, s[i..]))
    decreases |s| - i
  {
    if i < |s| {
      StarFirst(s, t, i + 1);
    }
    StarFirstHere(s, t, i);
  }

  lemma StarRunSteps(s: Text)
    ensures forall j | 0 <= j <= |s| :: RunStep(s, StarWays(ClassWays(IsBlank, s)), j)
  {
    var a := ClassWays(IsBlank, s);
    forall j | 0 <= j <= |s| ensures RunStep(s, StarWays(a), j) {
      StarWaysAt(a, j);
      StarOfClass(IsBlank, s, j);
      if j < |s| {
        StarWaysAt(a, j + 1);
      }
    }
  }

  /** Where p*$ ends that starts at i, p being blank. */
  function BlanksEnd(s: Text, i: nat): Option<nat>
    requires i <= |s|
  {
    if i + Lead(IsBlank, s[i..]) == |s| then Some(|s|)
    else Shift(LastNewline(s[i..], Lead(IsBlank, s[i..])), i)
  }

  lemma LastNewlineFrom(s: Text, i: nat, n: nat)
    requires i < |s| && 1 <= n <= |s| - i
    ensures LastNewline(s[i..], n)
         == match LastNewline(s[i + 1..], n - 1)
            case Some(q) => Some(q + 1)
            case None => if s[i] == '\n' then Some(0) else None
  {
    assert s[i..][1..] == s[i + 1..];
    LastNewlineTail(s[i..], n);
  }

  lemma BlankMore(s: Text, later: seq<nat>, here: seq<nat>, i: nat)
    requires i < |s| && IsBlank(s[i])
    requires FirstOf(later) == BlanksEnd(s, i + 1)
    requires here == if AtEndLine(s, i) then [i] else []
    ensures FirstOf(later + here) == BlanksEnd(s, i)
  {
    LeadStep(s, i);
    LastNewlineFrom(s, i, Lead(IsBlank, s[i..]));
    FirstOfAppend(later, here);
  }

  /** The preferred end of p*$ at i: the end of the text, or before the run's last newline. */
  lemma {:induction false} BlanksThenEndLine(s: Text, eol: Table, t: Table, i: nat)
    requires |eol| == |t| == |s| + 1 && i <= |s|
    requires forall j | 0 <= j <= |s| ::
               StarStep(IsBlank, s, eol, t, j) && eol[j] == if AtEndLine(s, j) then [j] else []
    ensures FirstOf(t[i]) == BlanksEnd(s, i)
    decreases |s| - i
  {
    assert StarStep(IsBlank, s, eol, t, i) && eol[i] == if AtEndLine(s, i) then [i] else [];
    if i < |s| && IsBlank(s[i]) {
      BlanksThenEndLine(s, eol, t, i + 1);
      BlankMore(s, t[i + 1], eol[i], i);
    }
  }

  lemma BlanksThenEndLineWays(s: Text, i: nat)
    requires i <= |s|
    ensures FirstOf(CatWays(StarWays(ClassWays(IsBlank, s)), EndLineWays(s))[i]) == BlanksEnd(s, i)
  {
    var eol := EndLineWays(s);
    var t := CatWays(StarWays(ClassWays(IsBlank, s)), eol);
    forall j | 0 <= j <= |s|
      ensures StarStep(IsBlank, s, eol, t, j) && eol[j] == if AtEndLine(s, j) then [j] else []
    {
      StarThen(IsBlank, s, eol, j);
      EndLineWaysAt(s, j);
    }
    BlanksThenEndLine(s, eol, t, i);
  }

  function BlankRunWays(s: Text): (t: Table)
    ensures |t| == |s| + 1 && Proper(t)
  {
    CatWays(ClassWays(IsBlank, s), StarWays(ClassWays(IsBlank, s)))
  }

  lemma BlankRunWaysMore(s: Text, i: nat)
    requires i < |s| && IsBlank(s[i])
    ensures FirstOf(StarWays(ClassWays(IsBlank, s))[i + 1]) == Some(i + Lead(IsBlank, s[i..]))
  {
    StarRunSteps(s);
    StarFirst(s, StarWays(ClassWays(IsBlank, s)), i + 1);
    LeadStep(s, i);
  }

  /** [\s\p{Zs}]+ at i takes the whole run. */
  lemma BlankRunWaysAt(s: Text, i: nat)
    requires i <= |s|
    ensures FirstOf(BlankRunWays(s)[i])
         == if Lead(IsBlank, s[i..]) == 0 then None else Some(i + Lead(IsBlank, s[i..]))
  {
    ClassThen(IsBlank, s, StarWays(ClassWays(IsBlank, s)), i);
    if i < |s| && IsBlank(s[i]) {
      BlankRunWaysMore(s, i);
      assert s[i..][0] == s[i];
    } else {
      assert Lead(IsBlank, s[i..]) == 0;
    }
  }

  lemma TailStep(s: Text, i: nat)
    requires i < |s| && IsBlank(s[i])
    ensures Shift(TrimTake(s[i..], false), i)
         == var n := Lead(IsBlank, s[i + 1..]);
            if i + 1 + n == |s| then Some(|s|) else Shift(LastNewline(s[i + 1..], n), i + 1)
  {
    assert s[i..][1..] == s[i + 1..];
    LastNewlineTail(s[i..], Lead(IsBlank, s[i..]));
  }

  /** [\s\p{Zs}]+$ at i. */
  lemma BlankTailWaysAt(s: Text, i: nat)
    requires i <= |s|
    ensures FirstOf(CatWays(BlankRunWays(s), EndLineWays(s))[i]) == Shift(TrimTake(s[i..], false), i)
  {
    PlusThen(IsBlank, s, EndLineWays(s), i);
    if i < |s| && IsBlank(s[i]) {
      BlanksThenEndLineWays(s, i + 1);
      TailStep(s, i);
    }
  }

  lemma TrimTable(s: Text)
    ensures Ways(TrimRegex(), s)
         == AltWays(CatWays(BeginLineWays(s), BlankRunWays(s)), CatWays(BlankRunWays(s), EndLineWays(s)))
  {
    var blank := Class(IsBlank);
    assert Ways(blank, s) == ClassWays(IsBlank, s);
    assert Ways(Star(blank), s) == StarWays(Ways(blank, s));
    assert Ways(Plus(blank), s) == CatWays(Ways(blank, s), Ways(Star(blank), s));
    assert Ways(Cat(BeginLine, Plus(blank)), s) == CatWays(Ways(BeginLine, s), Ways(Plus(blank), s));
    assert Ways(Cat(Plus(blank), EndLine), s) == CatWays(Ways(Plus(blank), s), Ways(EndLine, s));
  }

  lemma TrimWays(s: Text, run: Table, i: nat)
    requires i <= |s| && run == BlankRunWays(s)
    ensures FirstOf(AltWays(CatWays(BeginLineWays(s), run), CatWays(run, EndLineWays(s)))[i]) == TrimEnd(s, i)
  {
    AltWaysAt(CatWays(BeginLineWays(s), run), CatWays(run, EndLineWays(s)), i);
    BeginLineThen(s, run, i);
    BlankRunWaysAt(s, i);
    BlankTailWaysAt(s, i);
  }

  /** Row i of a table of the trim expression's matches. */
  ghost predicate TrimRow(t: Table, s: Text, i: nat)
    requires |t| == |s| + 1 && i <= |s|
  {
    FirstOf(t[i]) == TrimEnd(s, i)
  }

  ghost predicate IsTrimTable(t: Table, s: Text) {
    Proper(t) && |t| == |s| + 1 && forall i | 0 <= i <= |s| :: TrimRow(t, s, i)
  }

  lemma TrimMatches(s: Text)
    ensures IsTrimTable(Ways(TrimRegex(), s), s)
  {
    TrimTable(s);
    forall i | 0 <= i <= |s| ensures TrimRow(Ways(TrimRegex(), s), s, i) {
      TrimWays(s, BlankRunWays(s), i);
    }
  }

  lemma TrimTakes(t: Table, s: Text, i: nat, e: nat)
    requires IsTrimTable(t, s) && i < |s| && TrimEnd(s, i) == Some(e)
    ensures Scan(t, s, i, "") == Scan(t, s, e, "")
  {
    assert TrimRow(t, s, i);
  }

  lemma TrimCopies(t: Table, s: Text, i: nat)
    requires IsTrimTable(t, s) && i < |s| && TrimEnd(s, i) == None
    ensures Scan(t, s, i, "") == [s[i]] + Scan(t, s, i + 1, "")
  {
    assert TrimRow(t, s, i);
  }

  /** trimWhitespaceRegex.ReplaceAll(body, ""), under Go's matching rules, is one pass. */
  lemma TrimPass(s: Text)
    ensures ReplaceAll(TrimRegex(), s, "") == Scan(Ways(TrimRegex(), s), s, 0, "")
  {
    var t := Ways(TrimRegex(), s);
    TrimMatches(s);
    forall i | 0 <= i < |t| ensures FirstOf(t[i]) != Some(i) {
      assert TrimRow(t, s, i);
    }
    ReplaceFromIsScan(t, s, 0, "");
  }
}
