/**
  The two passes together, in the order Process applies them, and what each
  flag setting preserves.
 */
module NormalForm {
  import opened Basics
  import opened Regex
  import opened Whitespace
  import opened Normaliser
  import opened EmptyLines

  /** The end of Process: each pass runs if its flag is set, empty lines first. */
  function Cleaned(removeEmptyLines: bool, trimWhitespace: bool, body: Text): Text {
    var b := if removeEmptyLines then ReplaceAll(EmptyLineRegex(), body, "\n") else body;
    if trimWhitespace then ReplaceAll(TrimRegex(), b, "") else b
  }

  // ---- the empty-line pass does not change the lines that matter ----

  lemma {:induction false} RemoveKeepsSet(s: Text, c: char)
    ensures c in RemoveEmptyLines(s) ==> c in s
    decreases |s|
  {
    if s != [] {
      var t := if s[0] == '\n' then AfterEmptyLines(s[1..]) else s[1..];
      RemoveKeepsSet(t, c);
      if c in t {
        assert c in s[1..];
      }
    }
  }

  lemma {:induction false} RemoveKeepsBreak(s: Text)
    ensures '\n' in s ==> '\n' in RemoveEmptyLines(s)
    decreases |s|
  {
    if s != [] && s[0] != '\n' {
      RemoveKeepsBreak(s[1..]);
    }
  }

  /** A blank run stays a blank run, with a newline just if it had one. */
  lemma RemoveInBlankRun(w: Text)
    requires All(IsBlank, w) && w != []
    ensures var y := RemoveEmptyLines(w); All(IsBlank, y) && y != [] && AsLineBreak(y) == AsLineBreak(w)
  {
    var y := RemoveEmptyLines(w);
    forall k | 0 <= k < |y| ensures IsBlank(y[k]) {
      RemoveKeepsSet(w, y[k]);
    }
    RemoveKeepsBreak(w);
    RemoveKeepsSet(w, '\n');
    if '\n' !in w {
      RemoveNothing(w);
    }
  }

  lemma RemoveResumes(r: Text)
    requires Resumes(r)
    ensures Resumes(RemoveEmptyLines(r)) && RemoveEmptyLines(r) == [r[0]] + RemoveEmptyLines(r[1..])
  {
  }

  lemma RemoveSplit(s: Text)
    ensures var n := Lead(IsBlank, s);
            RemoveEmptyLines(s) == RemoveEmptyLines(s[..n]) + RemoveEmptyLines(s[n..])
  {
    var n := Lead(IsBlank, s);
    assert s == s[..n] + s[n..];
    RemoveAppend(s[..n], s[n..]);
  }

  lemma RemoveThenTrail(w: Text)
    requires All(IsBlank, w)
    ensures Interior(RemoveEmptyLines(w), AsLineBreak) == Interior(w, AsLineBreak)
  {
    if w != [] {
      RemoveInBlankRun(w);
      InteriorTrail(RemoveEmptyLines(w), AsLineBreak);
      InteriorTrail(w, AsLineBreak);
    }
  }

  lemma RemoveThenResumed(r: Text)
    requires Resumes(r)
    requires Interior(RemoveEmptyLines(r[1..]), AsLineBreak) == Interior(r[1..], AsLineBreak)
    ensures Interior(RemoveEmptyLines(r), AsLineBreak) == Interior(r, AsLineBreak)
  {
    RemoveResumes(r);
    InteriorHead(r, AsLineBreak);
    InteriorHead(RemoveEmptyLines(r), AsLineBreak);
    assert RemoveEmptyLines(r)[1..] == RemoveEmptyLines(r[1..]);
  }

  lemma RemoveThenRun(w: Text, r: Text)
    requires All(IsBlank, w) && w != [] && Resumes(r)
    requires Interior(RemoveEmptyLines(r), AsLineBreak) == Interior(r, AsLineBreak)
    ensures Interior(RemoveEmptyLines(w + r), AsLineBreak) == Interior(w + r, AsLineBreak)
  {
    RemoveInBlankRun(w);
    RemoveResumes(r);
    RemoveAppend(w, r);
    InteriorRun(w, r, AsLineBreak);
    InteriorRun(RemoveEmptyLines(w), RemoveEmptyLines(r), AsLineBreak);
  }

  lemma {:induction false} RemoveThenInterior(s: Text)
    ensures Interior(RemoveEmptyLines(s), AsLineBreak) == Interior(s, AsLineBreak)
    decreases |s|
  {
    var n := Lead(IsBlank, s);
    if n == |s| {
      RemoveThenTrail(s);
    } else {
      var r := s[n..];
      RemoveThenInterior(r[1..]);
      RemoveThenResumed(r);
      assert s == s[..n] + r;
      if n > 0 {
        RemoveThenRun(s[..n], r);
      } else {
        assert s == r;
      }
    }
  }

  lemma RemoveKeepsLines(s: Text)
    ensures BetweenRuns(RemoveEmptyLines(s), AsLineBreak) == BetweenRuns(s, AsLineBreak)
  {
    var n := Lead(IsBlank, s);
    var w, r := s[..n], s[n..];
    RemoveSplit(s);
    RemoveThenInterior(r);
    if n > 0 {
      RemoveInBlankRun(w);
    }
    if r != [] {
      RemoveResumes(r);
    }
    var y := RemoveEmptyLines(s);
    LeadIs(IsBlank, y, |RemoveEmptyLines(w)|);
    assert y[|RemoveEmptyLines(w)|..] == RemoveEmptyLines(r);
  }

  // ---- without empty lines no run glues ----

  lemma NoAdjacentNewlines(s: Text, i: nat)
    requires NoneAhead(s) && 0 < i < |s| && s[i - 1] == '\n'
    ensures s[i] != '\n'
  {
    NoneAheadAt(s, i - 1);
    var t := s[i..];
    assert s[i - 1..][1..] == t;
    assert LastNewline(t, Lead(IsSpace, t)) == None;
    assert t[0] == s[i];
  }

  lemma RunDoesNotGlue(s: Text, n: nat)
    requires NoneAhead(s) && n <= |s|
    ensures !Glues(s[..n])
  {
    match LastNewline(s[..n], n)
    case Some(q) =>
      if q > 0 && s[q - 1] == '\n' {
        NoAdjacentNewlines(s, q);
      }
    case None =>
  }

  lemma {:induction false} TrimmedAreBreaks(s: Text)
    requires NoneAhead(s)
    ensures Interior(s, AsTrimmed) == Interior(s, AsLineBreak)
    decreases |s|
  {
    if s != [] {
      var n := Lead(IsBlank, s);
      if n == 0 {
        TrimmedAreBreaks(s[1..]);
      } else if n < |s| {
        NoneAheadAt(s, n);
        TrimmedAreBreaks(s[n..]);
        RunDoesNotGlue(s, n);
      }
    }
  }

  /** Trimming a text without empty lines trims its lines and drops the blank ones. */
  lemma TrimLines(s: Text)
    requires NoneAhead(s)
    ensures ReplaceAll(TrimRegex(), s, "") == JoinLines(ContentLines(s))
  {
    TrimByRuns(s);
    NoneAheadAt(s, Lead(IsBlank, s));
    TrimmedAreBreaks(s[Lead(IsBlank, s)..]);
    RunsAreLines(s);
  }

  /** With both flags, Process keeps exactly the trimmed non-blank lines, in order. */
  lemma CleanedIsContentLines(body: Text)
    ensures Cleaned(true, true, body) == JoinLines(ContentLines(body))
  {
    EmptyLinePass(body);
    var y := RemoveEmptyLines(body);
    RemoveLeavesNone(body);
    TrimLines(y);
    RunsAreLines(y);
    RemoveKeepsLines(body);
    RunsAreLines(body);
  }

  // ---- change detection sees the content lines ----

  /** A trimmed non-blank line. */
  ghost predicate IsContentLine(l: Text) {
    l != [] && All(InLine, l) && TrimLine(l) == l
  }

  lemma {:induction false} TrimEndingPrefix(l: Text)
    ensures TrimEnding(l) <= l && (TrimEnding(l) != [] ==> !IsBlank(TrimEnding(l)[|TrimEnding(l)| - 1]))
  {
    if l != [] && IsBlank(l[|l| - 1]) {
      TrimEndingPrefix(l[..|l| - 1]);
    }
  }

  lemma TrimLineIsContent(l: Text)
    requires All(InLine, l) && TrimLine(l) != []
    ensures IsContentLine(TrimLine(l))
  {
    var n := Lead(IsBlank, l);
    var r := l[n..];
    var t := TrimEnding(r);
    TrimEndingPrefix(r);
    assert t[0] == r[0] == l[n];
    LeadIs(IsBlank, t, 0);
    assert t[0..] == t;
    forall k | 0 <= k < |t| ensures InLine(t[k]) {
      assert t[k] == l[n + k];
    }
  }

  lemma {:induction false} SplitInLine(s: Text)
    ensures forall l <- SplitLines(s) :: All(InLine, l)
  {
    var n := Lead(InLine, s);
    if n < |s| {
      SplitInLine(s[n + 1..]);
    }
  }

  lemma {:induction false} TrimmedAreContent(ls: seq<Text>)
    requires forall l <- ls :: All(InLine, l)
    ensures forall l <- TrimmedNonEmpty(ls) :: IsContentLine(l)
  {
    if ls != [] {
      TrimmedAreContent(ls[1..]);
      assert All(InLine, ls[0]);
      if TrimLine(ls[0]) != [] {
        TrimLineIsContent(ls[0]);
      }
    }
  }

  lemma {:induction false} SplitJoin(ls: seq<Text>)
    requires ls != [] && forall l <- ls :: IsContentLine(l)
    ensures SplitLines(JoinLines(ls)) == ls
  {
    assert IsContentLine(ls[0]);
    if |ls| == 1 {
      LeadIs(InLine, ls[0], |ls[0]|);
    } else {
      SplitJoin(ls[1..]);
      SplitFirst(ls[0], JoinLines(ls[1..]));
    }
  }

  lemma {:induction false} ContentUntouched(ls: seq<Text>)
    requires forall l <- ls :: IsContentLine(l)
    ensures TrimmedNonEmpty(ls) == ls
  {
    if ls != [] {
      assert IsContentLine(ls[0]);
      ContentUntouched(ls[1..]);
    }
  }

  lemma ContentOfJoin(ls: seq<Text>)
    requires forall l <- ls :: IsContentLine(l)
    ensures ContentLines(JoinLines(ls)) == ls
  {
    if ls == [] {
      var none: Text := [];
      assert SplitLines(none) == [none];
      assert TrimLine(none) == [];
      assert [none][1..] == [];
    } else {
      SplitJoin(ls);
      ContentUntouched(ls);
    }
  }

  lemma ContentOfCleaned(body: Text)
    ensures ContentLines(Cleaned(true, true, body)) == ContentLines(body)
  {
    CleanedIsContentLines(body);
    SplitInLine(body);
    TrimmedAreContent(SplitLines(body));
    ContentOfJoin(ContentLines(body));
  }

  /** Two bodies compare equal after cleaning exactly when their content lines agree. */
  lemma CleanedEqualIff(a: Text, b: Text)
    ensures Cleaned(true, true, a) == Cleaned(true, true, b) <==> ContentLines(a) == ContentLines(b)
  {
    CleanedIsContentLines(a);
    CleanedIsContentLines(b);
    ContentOfCleaned(a);
    ContentOfCleaned(b);
  }

  /** Cleaning a cleaned body changes nothing. */
  lemma CleanedTwice(body: Text)
    ensures Cleaned(true, true, Cleaned(true, true, body)) == Cleaned(true, true, body)
  {
    var once := Cleaned(true, true, body);
    CleanedIsContentLines(body);
    CleanedIsContentLines(once);
    ContentOfCleaned(body);
  }

  // ---- the trim flag alone ----

  /** How many blank runs between other runes the trim pass removes altogether. */
  function GluedRuns(s: Text): nat {
    if s == [] then 0
    else
      var n := Lead(IsBlank, s);
      if n == 0 then GluedRuns(s[1..])
      else if n == |s| then 0
      else (if Glues(s[..n]) then 1 else 0) + GluedRuns(s[n..])
  }

  lemma {:induction false} GluedShortens(s: Text)
    ensures |Interior(s, AsLineBreak)| == |Interior(s, AsTrimmed)| + GluedRuns(s)
    ensures GluedRuns(s) == 0 ==> Interior(s, AsLineBreak) == Interior(s, AsTrimmed)
    decreases |s|
  {
    if s != [] {
      var n := Lead(IsBlank, s);
      if n == 0 {
        GluedShortens(s[1..]);
      } else if n < |s| {
        GluedShortens(s[n..]);
      }
    }
  }

  /**
    The trim flag alone keeps the lines apart if and only if no run of whitespace
    between content has its last newline directly after another newline.
   */
  lemma TrimAloneKeepsLinesIff(body: Text)
    ensures Cleaned(false, true, body) == JoinLines(ContentLines(body))
       <==> GluedRuns(body[Lead(IsBlank, body)..]) == 0
  {
    TrimByRuns(body);
    RunsAreLines(body);
    GluedShortens(body[Lead(IsBlank, body)..]);
  }

  lemma OneRun(a: char, w: Text, b: char, rewrite: Text -> Text)
    requires !IsBlank(a) && !IsBlank(b) && All(IsBlank, w) && w != []
    ensures BetweenRuns([a] + (w + [b]), rewrite) == [a] + (rewrite(w) + [b])
  {
    var s := [a] + (w + [b]);
    LeadIs(IsBlank, s, 0);
    assert s[0..] == s && s[1..] == w + [b];
    InteriorHead(s, rewrite);
    InteriorRun(w, [b], rewrite);
    InteriorHead([b], rewrite);
  }

  /** On its own the trim flag joins two paragraphs, such as a, empty line, b, into one line. */
  lemma TrimAloneGluesParagraphs(a: char, b: char)
    requires !IsBlank(a) && !IsBlank(b)
    ensures Cleaned(false, true, [a, '\n', '\n', b]) == [a, b]
    ensures JoinLines(ContentLines([a, '\n', '\n', b])) == [a, '\n', b]
  {
    var s, w := [a, '\n', '\n', b], ['\n', '\n'];
    assert s == [a] + (w + [b]);
    LastNewlineIs(w, 2, 1);
    assert Glues(w) && w[0] in w;
    OneRun(a, w, b, AsTrimmed);
    OneRun(a, w, b, AsLineBreak);
    TrimByRuns(s);
    RunsAreLines(s);
  }

  lemma TrimmedRunTwice(w: Text)
    requires All(IsBlank, w)
    ensures var m := AsTrimmed(w); All(IsBlank, m) && AsTrimmed(m) == m
  {
    if !Glues(w) && '\n' in w {
      LastNewlineIs("\n", 1, 0);
      assert !Glues("\n") && AsLineBreak("\n") == "\n";
    }
  }

  lemma TrimmedTwiceStep(c: char, m: Text, z: Text)
    requires !IsBlank(c) && All(IsBlank, m) && AsTrimmed(m) == m
    requires (z == [] && m == []) || Resumes(z)
    requires Interior(z, AsTrimmed) == z
    ensures Interior([c] + (m + z), AsTrimmed) == [c] + (m + z)
  {
    var y := [c] + (m + z);
    assert y[1..] == m + z;
    InteriorHead(y, AsTrimmed);
    if m == [] {
      assert m + z == z;
    } else {
      InteriorRun(m, z, AsTrimmed);
    }
  }

  lemma TrimmedTwiceRest(c: char, t: Text, n: nat)
    requires n < |t| && All(IsBlank, t[..n]) && !IsBlank(t[n]) && !IsBlank(c)
    requires var z := Interior(t[n..], AsTrimmed); Resumes(z) && Interior(z, AsTrimmed) == z
    ensures var y := [c] + Interior(t, AsTrimmed); Resumes(y) && Interior(y, AsTrimmed) == y
  {
    var w, r := t[..n], t[n..];
    assert t == w + r;
    if n == 0 {
      assert t == r;
      TrimmedTwiceStep(c, [], Interior(r, AsTrimmed));
      assert [] + Interior(r, AsTrimmed) == Interior(r, AsTrimmed);
    } else {
      InteriorRun(w, r, AsTrimmed);
      TrimmedRunTwice(w);
      TrimmedTwiceStep(c, AsTrimmed(w), Interior(r, AsTrimmed));
    }
  }

  /** What the trim pass makes of a text is a text it leaves alone. */
  lemma {:induction false} TrimInteriorTwice(s: Text)
    requires s == [] || Resumes(s)
    ensures var y := Interior(s, AsTrimmed);
            (s != [] ==> Resumes(y)) && Interior(y, AsTrimmed) == y
    decreases |s|
  {
    if s != [] {
      var t := s[1..];
      var n := Lead(IsBlank, t);
      InteriorHead(s, AsTrimmed);
      if n == |t| {
        InteriorTrail(t, AsTrimmed);
        InteriorHead([s[0]], AsTrimmed);
      } else {
        TrimInteriorTwice(t[n..]);
        TrimmedTwiceRest(s[0], t, n);
      }
    }
  }

  /** The trim flag alone is idempotent. */
  lemma TrimTwice(body: Text)
    ensures Cleaned(false, true, Cleaned(false, true, body)) == Cleaned(false, true, body)
  {
    var r := body[Lead(IsBlank, body)..];
    var y := Interior(r, AsTrimmed);
    TrimByRuns(body);
    TrimByRuns(y);
    TrimInteriorTwice(r);
    LeadIs(IsBlank, y, 0);
    assert y[0..] == y;
  }

  lemma WithoutAppend(a: Text, b: Text)
    ensures Without(IsBlank, a + b) == Without(IsBlank, a) + Without(IsBlank, b)
  {
    if a == [] {
      assert a + b == b;
    } else {
      assert (a + b)[1..] == a[1..] + b;
      WithoutAppend(a[1..], b);
    }
  }

  lemma WithoutBlank(w: Text)
    requires All(IsBlank, w)
    ensures Without(IsBlank, w) == []
  {
    WithoutSkips(IsBlank, w, |w|);
    assert w[|w|..] == [];
  }

  lemma {:induction false} TrimKeepsContentIn(s: Text)
    ensures Without(IsBlank, Interior(s, AsTrimmed)) == Without(IsBlank, s)
    decreases |s|
  {
    if s != [] {
      var n := Lead(IsBlank, s);
      if n == 0 {
        TrimKeepsContentIn(s[1..]);
      } else {
        assert s == s[..n] + s[n..];
        WithoutAppend(s[..n], s[n..]);
        WithoutBlank(s[..n]);
        if n < |s| {
          TrimKeepsContentIn(s[n..]);
          TrimmedRunTwice(s[..n]);
          WithoutBlank(AsTrimmed(s[..n]));
          WithoutAppend(AsTrimmed(s[..n]), Interior(s[n..], AsTrimmed));
        } else {
          assert s[n..] == [];
        }
      }
    }
  }

  /** The trim flag alone keeps every rune that is not whitespace, in order. */
  lemma TrimKeepsContent(body: Text)
    ensures Without(IsBlank, Cleaned(false, true, body)) == Without(IsBlank, body)
  {
    var n := Lead(IsBlank, body);
    TrimByRuns(body);
    TrimKeepsContentIn(body[n..]);
    WithoutSkips(IsBlank, body, n);
  }
}
