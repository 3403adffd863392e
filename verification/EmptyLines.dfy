/** The empty-line pass alone. */
module EmptyLines {
  import opened Basics
  import opened Regex
  import opened Whitespace
  import opened Normaliser

  /** `b` starts where a maximal \s-run ends. */
  ghost predicate EndsRun(b: Text) {
    b == [] || !IsSpace(b[0])
  }

  lemma RemoveAtNewline(t: Text)
    ensures RemoveEmptyLines("\n" + t) == "\n" + RemoveEmptyLines(AfterEmptyLines(t))
  {
    assert ("\n" + t)[1..] == t;
  }

  lemma RemoveElsewhere(c: char, t: Text)
    requires c != '\n'
    ensures RemoveEmptyLines([c] + t) == [c] + RemoveEmptyLines(t)
  {
    assert ([c] + t)[1..] == t;
  }

  function CutAfter(t: Text, at: Option<nat>): Text
    requires at.Some? ==> at.value < |t|
  {
    match at
    case Some(q) => t[q + 1..]
    case None => t
  }

  lemma CutAppend(t: Text, b: Text, at: Option<nat>)
    requires at.Some? ==> at.value < |t|
    ensures CutAfter(t + b, at) == CutAfter(t, at) + b
  {
  }

  lemma AfterEmptyLinesIs(t: Text, n: nat)
    requires Lead(IsSpace, t) == n
    ensures AfterEmptyLines(t) == CutAfter(t, LastNewline(t, n))
  {
  }

  lemma LeadAppend(p: char -> bool, t: Text, b: Text)
    requires b == [] || !p(b[0])
    ensures Lead(p, t + b) == Lead(p, t)
  {
    LeadIs(p, t + b, Lead(p, t));
  }

  lemma {:induction false} LastNewlineAppend(t: Text, b: Text, n: nat)
    requires n <= |t|
    ensures LastNewline(t + b, n) == LastNewline(t, n)
  {
    if n > 0 {
      LastNewlineAppend(t, b, n - 1);
    }
  }

  lemma SkipAppend(t: Text, b: Text)
    requires EndsRun(b)
    ensures AfterEmptyLines(t + b) == AfterEmptyLines(t) + b
  {
    var n := Lead(IsSpace, t);
    LeadAppend(IsSpace, t, b);
    LastNewlineAppend(t, b, n);
    AfterEmptyLinesIs(t, n);
    AfterEmptyLinesIs(t + b, n);
    CutAppend(t, b, LastNewline(t, n));
  }

  lemma RemoveAtNewlineIs(t: Text, u: Text)
    requires AfterEmptyLines(t) == u
    ensures RemoveEmptyLines("\n" + t) == ['\n'] + RemoveEmptyLines(u)
  {
    RemoveAtNewline(t);
  }

  lemma RemoveAppendAtNewline(t: Text, b: Text)
    requires EndsRun(b)
    requires var u := AfterEmptyLines(t); RemoveEmptyLines(u + b) == RemoveEmptyLines(u) + RemoveEmptyLines(b)
    ensures RemoveEmptyLines("\n" + (t + b)) == RemoveEmptyLines("\n" + t) + RemoveEmptyLines(b)
  {
    var u := AfterEmptyLines(t);
    SkipAppend(t, b);
    RemoveAtNewlineIs(t, u);
    RemoveAtNewlineIs(t + b, u + b);
    Associate(['\n'], RemoveEmptyLines(u), RemoveEmptyLines(b));
  }

  /** The pass works on each \s-run by itself. */
  lemma {:induction false} RemoveAppend(a: Text, b: Text)
    requires EndsRun(b)
    ensures RemoveEmptyLines(a + b) == RemoveEmptyLines(a) + RemoveEmptyLines(b)
    decreases |a|
  {
    if a == [] {
      assert a + b == b;
    } else {
      var t := a[1..];
      assert a == [a[0]] + t && a + b == [a[0]] + (t + b);
      if a[0] == '\n' {
        RemoveAppend(AfterEmptyLines(t), b);
        RemoveAppendAtNewline(t, b);
      } else {
        RemoveAppend(t, b);
        RemoveElsewhere(a[0], t);
        RemoveElsewhere(a[0], t + b);
      }
    }
  }

  function OneBreakAt(run: Text, last: Option<nat>, first: nat): Text
    requires first <= |run| && (last.Some? ==> last.value < |run|)
  {
    match last
    case Some(q) => run[..first] + "\n" + run[q + 1..]
    case None => run
  }

  /** A run keeps what precedes its first newline and what follows its last. */
  function AsOneBreak(run: Text): Text {
    OneBreakAt(run, LastNewline(run, |run|), Lead(InLine, run))
  }

  /** Rewrite each maximal \s-run. */
  function EachSpaceRun(s: Text): Text {
    if s == [] then []
    else
      var n := Lead(IsSpace, s);
      if n == 0 then [s[0]] + EachSpaceRun(s[1..])
      else AsOneBreak(s[..n]) + EachSpaceRun(s[n..])
  }

  lemma {:induction false} RemoveNothing(t: Text)
    requires All(InLine, t)
    ensures RemoveEmptyLines(t) == t
  {
    if t != [] {
      RemoveNothing(t[1..]);
    }
  }

  lemma RemoveInRunAtNewline(t: Text)
    requires All(IsSpace, t)
    ensures RemoveEmptyLines("\n" + t) == "\n" + AfterEmptyLines(t)
  {
    LeadIs(IsSpace, t, |t|);
    RemoveAtNewline(t);
    RemoveNothing(AfterEmptyLines(t));
  }

  lemma OneBreakFirst(t: Text, last: Option<nat>)
    requires last.Some? ==> last.value < |t|
    ensures OneBreakAt("\n" + t, if last.Some? then Some(last.value + 1) else Some(0), 0)
         == "\n" + if last.Some? then t[last.value + 1..] else t
  {
    var run := "\n" + t;
    assert run[..0] == [];
    if last.Some? {
      assert run[last.value + 2..] == t[last.value + 1..];
    } else {
      assert run[1..] == t;
    }
  }

  lemma LastOfCons(c: char, t: Text)
    ensures LastNewline([c] + t, 1 + |t|)
         == match LastNewline(t, |t|)
            case Some(q) => Some(q + 1)
            case None => if c == '\n' then Some(0) else None
  {
    assert ([c] + t)[1..] == t;
    LastNewlineTail([c] + t, 1 + |t|);
  }

  lemma OneBreakAtNewline(t: Text)
    requires All(IsSpace, t)
    ensures AsOneBreak("\n" + t) == "\n" + AfterEmptyLines(t)
  {
    LastOfCons('\n', t);
    LeadIs(InLine, "\n" + t, 0);
    LeadIs(IsSpace, t, |t|);
    OneBreakFirst(t, LastNewline(t, |t|));
  }

  lemma LeadOfCons(p: char -> bool, c: char, t: Text)
    requires p(c)
    ensures Lead(p, [c] + t) == 1 + Lead(p, t)
  {
    assert ([c] + t)[1..] == t;
  }

  lemma AsOneBreakIs(run: Text, last: Option<nat>, first: nat)
    requires LastNewline(run, |run|) == last && Lead(InLine, run) == first
    ensures AsOneBreak(run) == OneBreakAt(run, last, first)
  {
  }

  lemma ConsJoin(c: char, x: Text, y: Text, z: Text)
    ensures [c] + x + y + z == [c] + (x + y + z)
  {
  }

  lemma OneBreakParts(c: char, t: Text, last: Option<nat>, f: nat)
    requires f <= |t| && (last.Some? ==> last.value < |t|)
    ensures OneBreakAt([c] + t, Shift(last, 1), 1 + f) == [c] + OneBreakAt(t, last, f)
  {
    var run := [c] + t;
    if last.Some? {
      var q := last.value;
      ConsJoin(c, t[..f], "\n", t[q + 1..]);
      assert run[..1 + f] == [c] + t[..f];
      assert run[q + 2..] == t[q + 1..];
    }
  }

  lemma OneBreakElsewhere(c: char, t: Text)
    requires c != '\n'
    ensures AsOneBreak([c] + t) == [c] + AsOneBreak(t)
  {
    var last, first := LastNewline(t, |t|), Lead(InLine, t);
    LastOfCons(c, t);
    LeadOfCons(InLine, c, t);
    AsOneBreakIs([c] + t, Shift(last, 1), 1 + first);
    AsOneBreakIs(t, last, first);
    OneBreakParts(c, t, last, first);
  }

  lemma {:induction false} RemoveInRun(run: Text)
    requires All(IsSpace, run)
    ensures RemoveEmptyLines(run) == AsOneBreak(run)
  {
    if run != [] {
      var t := run[1..];
      assert run == [run[0]] + t;
      if run[0] == '\n' {
        RemoveInRunAtNewline(t);
        OneBreakAtNewline(t);
      } else {
        RemoveElsewhere(run[0], t);
        RemoveInRun(t);
        OneBreakElsewhere(run[0], t);
      }
    }
  }

  lemma {:induction false} RemoveIsEachRun(s: Text)
    ensures RemoveEmptyLines(s) == EachSpaceRun(s)
    decreases |s|
  {
    if s != [] {
      var n := Lead(IsSpace, s);
      if n == 0 {
        RemoveIsEachRun(s[1..]);
      } else {
        assert s == s[..n] + s[n..];
        RemoveAppend(s[..n], s[n..]);
        RemoveInRun(s[..n]);
        RemoveIsEachRun(s[n..]);
      }
    }
  }

  /**
    The empty-line pass rewrites each maximal \s-run that holds a newline to what
    precedes its first newline, one newline, and what follows its last.
   */
  lemma EmptyLinesByRuns(s: Text)
    ensures ReplaceAll(EmptyLineRegex(), s, "\n") == EachSpaceRun(s)
  {
    EmptyLinePass(s);
    RemoveIsEachRun(s);
  }

  // ---- no empty line is left ----

  /** No match of the empty-line expression starts anywhere. */
  ghost predicate NoEmptyLine(s: Text) {
    forall i | 0 <= i <= |s| :: Ways(EmptyLineRegex(), s)[i] == []
  }

  /** The same, over the rest of the text. */
  predicate NoneAhead(s: Text) {
    s == [] || ((s[0] == '\n' ==> LastNewline(s[1..], Lead(IsSpace, s[1..])) == None) && NoneAhead(s[1..]))
  }

  lemma {:induction false} NoneAheadAt(s: Text, i: nat)
    requires NoneAhead(s) && i <= |s|
    ensures NoneAhead(s[i..])
  {
    if i == 0 {
      assert s[0..] == s;
    } else {
      NoneAheadAt(s, i - 1);
      assert s[i - 1..][1..] == s[i..];
    }
  }

  lemma NoneAheadMeans(s: Text)
    requires NoneAhead(s)
    ensures NoEmptyLine(s)
  {
    EmptyLineMatches(s);
    var t := Ways(EmptyLineRegex(), s);
    forall i | 0 <= i <= |s| ensures t[i] == [] {
      assert FirstOf(t[i]) == EmptyLineEnd(s, i);
      NoneAheadAt(s, i);
      if i < |s| {
        assert s[i..][1..] == s[i + 1..];
      }
    }
  }

  /** A text whose leading \s-run has no newline keeps that run. */
  lemma {:induction false} RemoveKeepsLead(t: Text)
    requires LastNewline(t, Lead(IsSpace, t)) == None
    ensures LastNewline(RemoveEmptyLines(t), Lead(IsSpace, RemoveEmptyLines(t))) == None
  {
    var n := Lead(IsSpace, t);
    var y := RemoveEmptyLines(t);
    RemoveAppend(t[..n], t[n..]);
    assert t == t[..n] + t[n..];
    RemoveNothing(t[..n]);
    assert y[..n] == t[..n];
    if n < |t| {
      assert RemoveEmptyLines(t[n..])[0] == t[n];
    }
    LeadIs(IsSpace, y, n);
    LastNewlinePrefix(y, n);
    LastNewlinePrefix(t, n);
  }

  lemma SkippedAll(t: Text)
    ensures var u := AfterEmptyLines(t); LastNewline(u, Lead(IsSpace, u)) == None
  {
    var n := Lead(IsSpace, t);
    match LastNewline(t, n)
    case Some(q) => LeadIs(IsSpace, t[q + 1..], n - q - 1);
    case None =>
  }

  lemma {:induction false} RemoveLeavesNone(s: Text)
    ensures NoneAhead(RemoveEmptyLines(s))
    decreases |s|
  {
    if s != [] {
      var t := s[1..];
      assert s == [s[0]] + t;
      if s[0] == '\n' {
        RemoveAtNewline(t);
        var u := AfterEmptyLines(t);
        RemoveLeavesNone(u);
        SkippedAll(t);
        RemoveKeepsLead(u);
        assert RemoveEmptyLines(s)[1..] == RemoveEmptyLines(u);
      } else {
        RemoveElsewhere(s[0], t);
        RemoveLeavesNone(t);
        assert RemoveEmptyLines(s)[1..] == RemoveEmptyLines(t);
      }
    }
  }

  lemma {:induction false} RemoveFixed(s: Text)
    requires NoneAhead(s)
    ensures RemoveEmptyLines(s) == s
  {
    if s != [] {
      RemoveFixed(s[1..]);
    }
  }

  /** The pass leaves no newline, \s*, newline behind, so applying it again changes nothing. */
  lemma EmptyLinesGone(s: Text)
    ensures var y := ReplaceAll(EmptyLineRegex(), s, "\n");
            NoEmptyLine(y) && ReplaceAll(EmptyLineRegex(), y, "\n") == y
  {
    EmptyLinePass(s);
    var y := RemoveEmptyLines(s);
    RemoveLeavesNone(s);
    NoneAheadMeans(y);
    EmptyLinePass(y);
    RemoveFixed(y);
  }

  // ---- nothing else is lost ----

  function Without(p: char -> bool, s: Text): Text {
    if s == [] then []
    else (if p(s[0]) then [] else [s[0]]) + Without(p, s[1..])
  }

  lemma {:induction false} WithoutSkips(p: char -> bool, s: Text, n: nat)
    requires n <= |s| && All(p, s[..n])
    ensures Without(p, s) == Without(p, s[n..])
  {
    if n > 0 {
      assert p(s[..n][0]);
      assert s[1..][..n - 1] == s[..n][1..];
      WithoutSkips(p, s[1..], n - 1);
      assert s[1..][n - 1..] == s[n..];
    } else {
      assert s[0..] == s;
    }
  }

  lemma {:induction false} RemoveKeepsContent(s: Text)
    ensures Without(IsSpace, RemoveEmptyLines(s)) == Without(IsSpace, s)
    ensures |RemoveEmptyLines(s)| <= |s|
    decreases |s|
  {
    if s != [] {
      var t := s[1..];
      assert s == [s[0]] + t;
      if s[0] == '\n' {
        RemoveAtNewline(t);
        var u := AfterEmptyLines(t);
        RemoveKeepsContent(u);
        assert RemoveEmptyLines(s)[1..] == RemoveEmptyLines(u);
        WithoutSkips(IsSpace, t, |t| - |u|);
        assert t[|t| - |u|..] == u;
      } else {
        RemoveElsewhere(s[0], t);
        RemoveKeepsContent(t);
        assert RemoveEmptyLines(s)[1..] == RemoveEmptyLines(t);
      }
    }
  }

  /** The pass keeps every rune outside \s, in order, and never lengthens the text. */
  lemma EmptyLinesKeepContent(s: Text)
    ensures var y := ReplaceAll(EmptyLineRegex(), s, "\n");
            Without(IsSpace, y) == Without(IsSpace, s) && |y| <= |s|
  {
    EmptyLinePass(s);
    RemoveKeepsContent(s);
  }
}
