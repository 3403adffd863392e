/**
  What the two whitespace passes mean: each pass described run by run, and the
  pair, in the order Process applies them, described line by line.
 */
module Normaliser {
  import opened Basics
  import opened Regex
  import opened Whitespace

  // ---- texts seen as blank runs between other runes ----

  ghost predicate All(p: char -> bool, s: Text) {
    forall k | 0 <= k < |s| :: p(s[k])
  }

  /** `s` with its trailing blank run dropped and each other blank run rewritten. */
  function Interior(s: Text, rewrite: Text -> Text): Text {
    if s == [] then []
    else
      var n := Lead(IsBlank, s);
      if n == 0 then [s[0]] + Interior(s[1..], rewrite)
      else if n == |s| then []
      else rewrite(s[..n]) + Interior(s[n..], rewrite)
  }

  /** Drop the leading and trailing blank runs, rewrite those in between. */
  function BetweenRuns(s: Text, rewrite: Text -> Text): Text {
    Interior(s[Lead(IsBlank, s)..], rewrite)
  }

  /** A run with a newline becomes one newline. */
  function AsLineBreak(run: Text): Text {
    if '\n' in run then "\n" else run
  }

  /** The last newline of the run comes right after another newline. */
  predicate Glues(run: Text) {
    match LastNewline(run, |run|)
    case Some(q) => q > 0 && run[q - 1] == '\n'
    case None => false
  }

  /** What the trim pass makes of a run: a newline, or nothing when the run glues. */
  function AsTrimmed(run: Text): Text {
    if Glues(run) then [] else AsLineBreak(run)
  }

  lemma LastNewlineIs(s: Text, n: nat, q: nat)
    requires q < n <= |s| && s[q] == '\n'
    requires forall k | q < k < n :: s[k] != '\n'
    ensures LastNewline(s, n) == Some(q)
  {
  }

  lemma LeadIs(p: char -> bool, s: Text, n: nat)
    requires n <= |s| && (n < |s| ==> !p(s[n]))
    requires forall k | 0 <= k < n :: p(s[k])
    ensures Lead(p, s) == n
  {
  }

  lemma LastNewlinePrefix(s: Text, n: nat)
    requires n <= |s|
    ensures LastNewline(s[..n], n) == LastNewline(s, n)
  {
    match LastNewline(s, n)
    case Some(q) => LastNewlineIs(s[..n], n, q);
    case None =>
  }

  /** `r` starts where a maximal blank run ends. */
  ghost predicate Resumes(r: Text) {
    r != [] && !IsBlank(r[0])
  }

  lemma InteriorHead(r: Text, rewrite: Text -> Text)
    requires Resumes(r)
    ensures Interior(r, rewrite) == [r[0]] + Interior(r[1..], rewrite)
  {
    LeadIs(IsBlank, r, 0);
  }

  lemma InteriorRun(w: Text, r: Text, rewrite: Text -> Text)
    requires All(IsBlank, w) && w != [] && Resumes(r)
    ensures Interior(w + r, rewrite) == rewrite(w) + Interior(r, rewrite)
  {
    var s := w + r;
    LeadIs(IsBlank, s, |w|);
    assert s[..|w|] == w && s[|w|..] == r;
  }

  lemma InteriorTrail(w: Text, rewrite: Text -> Text)
    requires All(IsBlank, w)
    ensures Interior(w, rewrite) == []
  {
    LeadIs(IsBlank, w, |w|);
  }

  // ---- the trim pass alone ----

  /** [i..j) is what is left of a maximal blank run that ends before the text does. */
  ghost predicate RunTo(s: Text, i: nat, j: nat) {
    i <= j < |s| && All(IsBlank, s[i..j]) && !IsBlank(s[j])
  }

  lemma LeadOfRun(s: Text, i: nat, j: nat)
    requires RunTo(s, i, j)
    ensures Lead(IsBlank, s[i..]) == j - i
  {
    forall k | 0 <= k < j - i ensures IsBlank(s[i..][k]) {
      assert s[i..j][k] == s[i..][k];
    }
    LeadIs(IsBlank, s[i..], j - i);
  }

  lemma TrimFromBeginLine(t: Table, s: Text, i: nat, j: nat)
    requires IsTrimTable(t, s) && RunTo(s, i, j) && AtBeginLine(s, i)
    ensures Scan(t, s, i, "") == Scan(t, s, j, "")
  {
    LeadOfRun(s, i, j);
    if i < j {
      TrimTakes(t, s, i, j);
    }
  }

  /** Inside a line, the match goes up to the last newline of the run, if that is not at once. */
  lemma TrimEndInRun(s: Text, i: nat, j: nat)
    requires RunTo(s, i, j) && i < j && !AtBeginLine(s, i)
    ensures TrimEnd(s, i)
         == match LastNewline(s[i..j], j - i)
            case Some(q) => if q > 0 then Some(i + q) else None
            case None => None
  {
    LeadOfRun(s, i, j);
    LastNewlinePrefix(s[i..], j - i);
    assert s[i..][..j - i] == s[i..j];
  }

  lemma RunTail(s: Text, i: nat, k: nat, j: nat)
    requires RunTo(s, i, j) && i <= k <= j
    ensures RunTo(s, k, j) && s[i..j][k - i..] == s[k..j]
  {
  }

  predicate InLine(c: char) {
    c != '\n'
  }

  lemma {:induction false} NoNewline(x: Text, n: nat)
    requires n <= |x| && All(InLine, x)
    ensures LastNewline(x, n) == None
  {
    if n > 0 {
      assert InLine(x[n - 1]);
      NoNewline(x, n - 1);
    }
  }

  lemma NoNewlineNoMatch(s: Text, i: nat, j: nat)
    requires RunTo(s, i, j) && i < j && All(InLine, s[i..j]) && !AtBeginLine(s, i)
    ensures TrimEnd(s, i) == None
  {
    TrimEndInRun(s, i, j);
    NoNewline(s[i..j], j - i);
  }

  lemma RestOfLine(s: Text, i: nat, j: nat)
    requires RunTo(s, i, j) && i < j && All(InLine, s[i..j])
    ensures RunTo(s, i + 1, j) && All(InLine, s[i + 1..j]) && !AtBeginLine(s, i + 1)
    ensures s[i..j] == [s[i]] + s[i + 1..j]
  {
    RunTail(s, i, i + 1, j);
    assert InLine(s[i..j][0]);
    var tail := s[i + 1..j];
    forall k | 0 <= k < |tail| ensures InLine(tail[k]) {
      assert s[i..j][k + 1] == tail[k];
    }
  }

  lemma {:induction false} TrimFromWithinLine(t: Table, s: Text, i: nat, j: nat)
    requires IsTrimTable(t, s) && RunTo(s, i, j) && All(InLine, s[i..j]) && !AtBeginLine(s, i)
    ensures Scan(t, s, i, "") == s[i..j] + Scan(t, s, j, "")
    decreases j - i
  {
    if i < j {
      RestOfLine(s, i, j);
      TrimFromWithinLine(t, s, i + 1, j);
      NoNewlineNoMatch(s, i, j);
      TrimCopies(t, s, i);
      Associate([s[i]], s[i + 1..j], Scan(t, s, j, ""));
    } else {
      assert s[i..j] == [];
    }
  }

  lemma TrimFromBreak(t: Table, s: Text, i: nat, j: nat)
    requires IsTrimTable(t, s) && RunTo(s, i, j)
    requires LastNewline(s[i..j], j - i) == Some(0) && !AtBeginLine(s, i)
    ensures Scan(t, s, i, "") == "\n" + Scan(t, s, j, "")
  {
    TrimEndInRun(s, i, j);
    TrimCopies(t, s, i);
    RunTail(s, i, i + 1, j);
    TrimFromBeginLine(t, s, i + 1, j);
  }

  lemma TailNewline(w: Text, q: nat)
    requires q < |w| && LastNewline(w, |w|) == Some(q)
    ensures LastNewline(w[q..], |w| - q) == Some(0)
  {
    LastNewlineIs(w[q..], |w| - q, 0);
  }

  lemma RunRune(s: Text, i: nat, k: nat, j: nat)
    requires RunTo(s, i, j) && i <= k < j
    ensures s[i..j][k - i] == s[k]
  {
  }

  /** The run from its last newline on, which stands at m. */
  lemma LastBreak(s: Text, i: nat, m: nat, j: nat)
    requires RunTo(s, i, j) && i < m < j && LastNewline(s[i..j], j - i) == Some(m - i)
    ensures RunTo(s, m, j) && LastNewline(s[m..j], j - m) == Some(0)
    ensures AtBeginLine(s, m) <==> Glues(s[i..j])
  {
    RunTail(s, i, m, j);
    RunRune(s, i, m - 1, j);
    TailNewline(s[i..j], m - i);
  }

  lemma TrimFromLastBreak(t: Table, s: Text, m: nat, j: nat)
    requires IsTrimTable(t, s) && RunTo(s, m, j) && LastNewline(s[m..j], j - m) == Some(0)
    ensures Scan(t, s, m, "") == (if AtBeginLine(s, m) then "" else "\n") + Scan(t, s, j, "")
  {
    if AtBeginLine(s, m) {
      TrimFromBeginLine(t, s, m, j);
    } else {
      TrimFromBreak(t, s, m, j);
    }
  }

  lemma TrimToLastBreak(t: Table, s: Text, i: nat, m: nat, j: nat)
    requires IsTrimTable(t, s) && RunTo(s, i, j) && i < m < j && !AtBeginLine(s, i)
    requires LastNewline(s[i..j], j - i) == Some(m - i)
    ensures Scan(t, s, i, "") == Scan(t, s, m, "")
  {
    TrimEndInRun(s, i, j);
    TrimTakes(t, s, i, m);
  }

  lemma TrimFromWithBreak(t: Table, s: Text, i: nat, m: nat, j: nat)
    requires IsTrimTable(t, s) && RunTo(s, i, j) && i < m < j && !AtBeginLine(s, i)
    requires LastNewline(s[i..j], j - i) == Some(m - i)
    ensures Scan(t, s, i, "") == (if Glues(s[i..j]) then "" else "\n") + Scan(t, s, j, "")
  {
    TrimToLastBreak(t, s, i, m, j);
    LastBreak(s, i, m, j);
    TrimFromLastBreak(t, s, m, j);
  }

  lemma TrimmedRun(w: Text)
    ensures AsTrimmed(w) == match LastNewline(w, |w|)
                            case None => w
                            case Some(_) => if Glues(w) then "" else "\n"
  {
    if LastNewline(w, |w|).Some? {
      assert w[LastNewline(w, |w|).value] in w;
    }
  }

  /** A run between content comes out as AsTrimmed says. */
  lemma TrimFromRun(t: Table, s: Text, i: nat, j: nat)
    requires IsTrimTable(t, s) && RunTo(s, i, j) && i < j && !AtBeginLine(s, i)
    ensures Scan(t, s, i, "") == AsTrimmed(s[i..j]) + Scan(t, s, j, "")
  {
    TrimmedRun(s[i..j]);
    match LastNewline(s[i..j], j - i)
    case None => TrimFromWithinLine(t, s, i, j);
    case Some(q) =>
      if q == 0 {
        TrimFromBreak(t, s, i, j);
      } else {
        TrimFromWithBreak(t, s, i, i + q, j);
      }
  }

  lemma TrimFromContent(t: Table, s: Text, i: nat)
    requires IsTrimTable(t, s) && i < |s| && !IsBlank(s[i])
    ensures Scan(t, s, i, "") == [s[i]] + Scan(t, s, i + 1, "")
  {
    LeadIs(IsBlank, s[i..], 0);
    TrimCopies(t, s, i);
  }

  lemma TrimFromTrail(t: Table, s: Text, i: nat)
    requires IsTrimTable(t, s) && i <= |s| && All(IsBlank, s[i..])
    ensures Scan(t, s, i, "") == []
  {
    LeadIs(IsBlank, s[i..], |s| - i);
    if i < |s| {
      TrimTakes(t, s, i, |s|);
    }
  }

  lemma RunOfLead(s: Text, i: nat)
    requires i <= |s| && i + Lead(IsBlank, s[i..]) < |s|
    ensures RunTo(s, i, i + Lead(IsBlank, s[i..])) && !IsBlank(s[i + Lead(IsBlank, s[i..])])
  {
    var n := Lead(IsBlank, s[i..]);
    assert s[i..][n] == s[i + n];
    forall k | i <= k < i + n ensures IsBlank(s[k]) {
      assert s[i..][k - i] == s[k];
    }
  }

  lemma ContentBeginsNoLine(s: Text, j: nat)
    requires j < |s| && !IsBlank(s[j])
    ensures !AtBeginLine(s, j + 1)
  {
  }

  lemma NextContent(s: Text, i: nat) returns (j: nat)
    requires i <= |s| && i + Lead(IsBlank, s[i..]) < |s|
    ensures RunTo(s, i, j) && !IsBlank(s[j]) && !AtBeginLine(s, j + 1)
  {
    j := i + Lead(IsBlank, s[i..]);
    RunOfLead(s, i);
    ContentBeginsNoLine(s, j);
  }

  lemma InteriorFromRun(s: Text, i: nat, j: nat, rewrite: Text -> Text)
    requires RunTo(s, i, j) && i < j
    ensures Interior(s[i..], rewrite) == rewrite(s[i..j]) + Interior(s[j..], rewrite)
  {
    InteriorRun(s[i..j], s[j..], rewrite);
    assert s[i..j] + s[j..] == s[i..];
  }

  lemma TrimFromRunOn(t: Table, s: Text, i: nat, j: nat)
    requires IsTrimTable(t, s) && RunTo(s, i, j) && i < j && !AtBeginLine(s, i)
    requires Scan(t, s, j, "") == Interior(s[j..], AsTrimmed)
    ensures Scan(t, s, i, "") == Interior(s[i..], AsTrimmed)
  {
    TrimFromRun(t, s, i, j);
    InteriorFromRun(s, i, j, AsTrimmed);
  }

  lemma BlankWithinLine(s: Text, i: nat, j: nat)
    requires RunTo(s, i, j) && i < j && (!AtBeginLine(s, i) || !IsBlank(s[i]))
    ensures !AtBeginLine(s, i)
  {
  }

  lemma TrimFromEnd(t: Table, s: Text, i: nat)
    requires IsTrimTable(t, s) && i <= |s| && i + Lead(IsBlank, s[i..]) == |s|
    ensures Scan(t, s, i, "") == Interior(s[i..], AsTrimmed)
  {
    TrimFromTrail(t, s, i);
    InteriorTrail(s[i..], AsTrimmed);
  }

  lemma TrimFromContentOn(t: Table, s: Text, j: nat)
    requires IsTrimTable(t, s) && j < |s| && !IsBlank(s[j])
    requires Scan(t, s, j + 1, "") == Interior(s[j + 1..], AsTrimmed)
    ensures Scan(t, s, j, "") == Interior(s[j..], AsTrimmed)
  {
    TrimFromContent(t, s, j);
    InteriorHead(s[j..], AsTrimmed);
    assert s[j..][1..] == s[j + 1..];
  }

  /** A run, which may be empty, and the rune after it. */
  lemma TrimFromRunAndContent(t: Table, s: Text, i: nat, j: nat)
    requires IsTrimTable(t, s) && RunTo(s, i, j) && !IsBlank(s[j])
    requires !AtBeginLine(s, i) || !IsBlank(s[i])
    requires Scan(t, s, j + 1, "") == Interior(s[j + 1..], AsTrimmed)
    ensures Scan(t, s, i, "") == Interior(s[i..], AsTrimmed)
  {
    TrimFromContentOn(t, s, j);
    if i < j {
      BlankWithinLine(s, i, j);
      TrimFromRunOn(t, s, i, j);
    } else {
      assert i == j;
    }
  }

  /** A position inside a line: no run of blanks starts a line there. */
  ghost predicate WithinLine(s: Text, i: nat) {
    i <= |s| && (i == |s| || !AtBeginLine(s, i) || !IsBlank(s[i]))
  }

  ghost predicate MeansInterior(s: Text, meaning: nat -> Text) {
    forall k: nat {:trigger Interior(s[k..], AsTrimmed)} | k <= |s| :: meaning(k) == Interior(s[k..], AsTrimmed)
  }

  /** The pass from position i on leaves what `meaning` says. */
  ghost predicate TrimmedAt(t: Table, s: Text, i: nat, meaning: nat -> Text)
    requires IsTrimTable(t, s) && i <= |s|
  {
    Scan(t, s, i, "") == meaning(i)
  }

  /** The rune `j` after the run at `i`: what holds after it holds before the run. */
  lemma TrimNext(t: Table, s: Text, i: nat, meaning: nat -> Text) returns (j: nat)
    requires IsTrimTable(t, s) && WithinLine(s, i)
    requires MeansInterior(s, meaning)
    ensures i <= j <= |s|
    ensures if j == |s| then TrimmedAt(t, s, i, meaning)
            else WithinLine(s, j + 1) && (TrimmedAt(t, s, j + 1, meaning) ==> TrimmedAt(t, s, i, meaning))
  {
    j := i + Lead(IsBlank, s[i..]);
    if j == |s| {
      TrimFromEnd(t, s, i);
    } else {
      j := NextContent(s, i);
      if TrimmedAt(t, s, j + 1, meaning) {
        TrimFromRunAndContent(t, s, i, j);
      }
    }
  }

  lemma {:induction false} TrimFromWithin(t: Table, s: Text, i: nat, meaning: nat -> Text)
    requires IsTrimTable(t, s) && WithinLine(s, i) && MeansInterior(s, meaning)
    ensures TrimmedAt(t, s, i, meaning)
    decreases |s| - i
  {
    var j := TrimNext(t, s, i, meaning);
    if j < |s| {
      TrimFromWithin(t, s, j + 1, meaning);
    }
  }

  lemma TrimIsBetweenRuns(t: Table, s: Text)
    requires IsTrimTable(t, s)
    ensures Scan(t, s, 0, "") == BetweenRuns(s, AsTrimmed)
  {
    var n := Lead(IsBlank, s);
    assert s[0..] == s;
    if n < |s| {
      TrimFromBeginLine(t, s, 0, n);
      var meaning := (k: nat) => if k <= |s| then Interior(s[k..], AsTrimmed) else [];
      TrimFromWithin(t, s, n, meaning);
    } else {
      TrimFromTrail(t, s, 0);
      assert s[n..] == [];
    }
  }

  /**
    The trim pass deletes the leading and the trailing blank run, keeps a run
    between without a newline, and makes a run with one a single newline or, when
    its last newline directly follows another, nothing.
   */
  lemma TrimByRuns(s: Text)
    ensures ReplaceAll(TrimRegex(), s, "") == BetweenRuns(s, AsTrimmed)
  {
    TrimPass(s);
    TrimMatches(s);
    TrimIsBetweenRuns(Ways(TrimRegex(), s), s);
  }

  // ---- lines ----

  function SplitLines(s: Text): (ls: seq<Text>)
    ensures ls != []
  {
    var n := Lead(InLine, s);
    if n == |s| then [s] else [s[..n]] + SplitLines(s[n + 1..])
  }

  lemma SplitFirst(l: Text, x: Text)
    requires All(InLine, l)
    ensures SplitLines(l + "\n" + x) == [l] + SplitLines(x)
  {
    var s := l + "\n" + x;
    LeadIs(InLine, s, |l|);
    assert s[..|l|] == l && s[|l| + 1..] == x;
  }

  function TrimEnding(l: Text): Text {
    if l != [] && IsBlank(l[|l| - 1]) then TrimEnding(l[..|l| - 1]) else l
  }

  function TrimLine(l: Text): Text {
    TrimEnding(l[Lead(IsBlank, l)..])
  }

  /** The lines, trimmed, without those that are then empty. */
  function TrimmedNonEmpty(ls: seq<Text>): seq<Text> {
    if ls == [] then []
    else (if TrimLine(ls[0]) == [] then [] else [TrimLine(ls[0])]) + TrimmedNonEmpty(ls[1..])
  }

  function ContentLines(s: Text): seq<Text> {
    TrimmedNonEmpty(SplitLines(s))
  }

  function JoinLines(ls: seq<Text>): Text {
    if ls == [] then []
    else if |ls| == 1 then ls[0]
    else ls[0] + "\n" + JoinLines(ls[1..])
  }

  lemma {:induction false} TrimEndingBlank(b: Text)
    requires All(IsBlank, b)
    ensures TrimEnding(b) == []
  {
    if b != [] {
      TrimEndingBlank(b[..|b| - 1]);
    }
  }

  lemma BetweenEmpty(x: Text, rewrite: Text -> Text)
    ensures BetweenRuns(x, rewrite) == [] <==> All(IsBlank, x)
  {
    var n := Lead(IsBlank, x);
    if n < |x| {
      LeadIs(IsBlank, x[n..], 0);
    }
  }

  /** The text of the lines after the first, with the newline that precedes it. */
  function AfterBreak(x: Text): Text {
    var rest := BetweenRuns(x, AsLineBreak);
    if rest == [] then [] else "\n" + rest
  }

  /** `rewrite` leaves a run within a line alone. */
  ghost predicate KeepsWithinLine(rewrite: Text -> Text) {
    forall w: Text | All(InLine, w) :: rewrite(w) == w
  }

  /** Text `y` that follows the blank ending of a line comes out as `rest`. */
  ghost predicate Continues(y: Text, rest: Text, rewrite: Text -> Text) {
    forall b: Text | All(IsBlank, b) && All(InLine, b) :: Interior(b + y, rewrite) == rest
  }

  lemma InteriorAfter(w: Text, c: char, x: Text, rewrite: Text -> Text)
    requires All(IsBlank, w) && rewrite(w) == w && !IsBlank(c)
    ensures Interior(w + ([c] + x), rewrite) == (w + [c]) + Interior(x, rewrite)
  {
    var r := [c] + x;
    InteriorHead(r, rewrite);
    assert r[1..] == x;
    if w != [] {
      InteriorRun(w, r, rewrite);
      Associate(w, [c], Interior(x, rewrite));
    } else {
      assert w + r == r && w + [c] == [c];
    }
  }

  /** Up to and including a rune that is not blank, the text is copied. */
  lemma InteriorContent(l: Text, m: nat, y: Text, rewrite: Text -> Text)
    requires m < |l| && All(IsBlank, l[..m]) && rewrite(l[..m]) == l[..m] && !IsBlank(l[m])
    ensures Interior(l + y, rewrite) == l[..m + 1] + Interior(l[m + 1..] + y, rewrite)
  {
    var w, c, x := l[..m], l[m], l[m + 1..] + y;
    assert l + y == w + ([c] + x);
    assert l[..m + 1] == w + [c];
    InteriorAfter(w, c, x, rewrite);
  }

  lemma {:induction false} TrimEndingContent(l: Text, m: nat)
    requires m < |l| && !IsBlank(l[m])
    ensures TrimEnding(l) == l[..m + 1] + TrimEnding(l[m + 1..])
    decreases |l|
  {
    var n, b := |l| - 1, l[m + 1..];
    if m == n {
      assert l[..m + 1] == l;
    } else {
      assert b[|b| - 1] == l[n];
      if IsBlank(l[n]) {
        TrimEndingContent(l[..n], m);
        assert l[..n][m + 1..] == b[..|b| - 1];
        assert l[..n][..m + 1] == l[..m + 1];
      }
    }
  }

  lemma {:induction false} FirstLineInterior(l: Text, y: Text, rest: Text, rewrite: Text -> Text)
    requires All(InLine, l) && KeepsWithinLine(rewrite) && Continues(y, rest, rewrite)
    ensures Interior(l + y, rewrite) == TrimEnding(l) + rest
    decreases |l|
  {
    var m := Lead(IsBlank, l);
    if m == |l| {
      TrimEndingBlank(l);
    } else {
      var head, tail := l[..m + 1], l[m + 1..];
      FirstLineInterior(tail, y, rest, rewrite);
      assert All(InLine, l[..m]);
      InteriorContent(l, m, y, rewrite);
      TrimEndingContent(l, m);
      Associate(head, TrimEnding(tail), rest);
    }
  }

  lemma LeadRun(x: Text, k: nat)
    requires k == Lead(IsBlank, x)
    ensures All(IsBlank, x[..k])
  {
  }

  lemma LeadResumes(x: Text, k: nat)
    requires k == Lead(IsBlank, x) && k < |x|
    ensures Resumes(x[k..])
  {
  }

  lemma LeadAll(x: Text, k: nat)
    requires k == Lead(IsBlank, x)
    ensures k == |x| <==> All(IsBlank, x)
  {
  }

  lemma AfterBreakIs(x: Text, k: nat)
    requires k == Lead(IsBlank, x)
    ensures AfterBreak(x) == if k < |x| then "\n" + Interior(x[k..], AsLineBreak) else []
  {
    BetweenEmpty(x, AsLineBreak);
    LeadAll(x, k);
  }

  lemma BothBlank(x: Text, y: Text)
    requires All(IsBlank, x) && All(IsBlank, y)
    ensures All(IsBlank, x + y)
  {
  }

  lemma BlankBreak(b: Text, y: Text)
    requires All(IsBlank, b) && All(IsBlank, y)
    ensures All(IsBlank, b + ("\n" + y))
  {
    BothBlank("\n", y);
    BothBlank(b, "\n" + y);
  }

  lemma JoinedRun(a: Text, b: Text, c: Text, r: Text, rewrite: Text -> Text)
    requires All(IsBlank, a) && All(IsBlank, b) && All(IsBlank, c) && b != [] && Resumes(r)
    ensures Interior(a + (b + (c + r)), rewrite) == rewrite(a + (b + c)) + Interior(r, rewrite)
  {
    BothBlank(b, c);
    BothBlank(a, b + c);
    InteriorRun(a + (b + c), r, rewrite);
    Associate(b, c, r);
    Associate(a, b + c, r);
  }

  lemma BreakInRun(b: Text, y: Text)
    ensures AsLineBreak(b + ("\n" + y)) == "\n"
  {
    assert (b + ("\n" + y))[|b|] == '\n';
  }

  lemma BlankFirstRun(b: Text, y: Text, r: Text)
    requires All(IsBlank, b) && All(IsBlank, y) && Resumes(r)
    ensures Interior(b + ("\n" + (y + r)), AsLineBreak) == "\n" + Interior(r, AsLineBreak)
  {
    JoinedRun(b, "\n", y, r, AsLineBreak);
    BreakInRun(b, y);
  }

  lemma BlankFirstLine(b: Text, x: Text)
    requires All(IsBlank, b)
    ensures Interior(b + ("\n" + x), AsLineBreak) == AfterBreak(x)
  {
    var k := Lead(IsBlank, x);
    AfterBreakIs(x, k);
    if k < |x| {
      LeadRun(x, k);
      LeadResumes(x, k);
      TakeAndDrop(x, k);
      BlankFirstRun(b, x[..k], x[k..]);
    } else {
      LeadAll(x, k);
      BlankBreak(b, x);
      InteriorTrail(b + ("\n" + x), AsLineBreak);
    }
  }

  lemma LineBreakContinues(x: Text)
    ensures Continues("\n" + x, AfterBreak(x), AsLineBreak)
  {
    var y, rest := "\n" + x, AfterBreak(x);
    forall b: Text | All(IsBlank, b) && All(InLine, b) ensures Interior(b + y, AsLineBreak) == rest {
      BlankFirstLine(b, x);
    }
  }

  lemma LeadOfBlankLine(l: Text, x: Text)
    requires All(IsBlank, l)
    ensures var s := l + ("\n" + x); s[Lead(IsBlank, s)..] == x[Lead(IsBlank, x)..]
  {
    var s, k := l + ("\n" + x), Lead(IsBlank, x);
    LeadIs(IsBlank, s, |l| + 1 + k);
    assert s[|l| + 1 + k..] == x[k..];
  }

  lemma FirstLine(l: Text, x: Text)
    requires All(InLine, l)
    ensures BetweenRuns(l + ("\n" + x), AsLineBreak)
         == if TrimLine(l) == [] then BetweenRuns(x, AsLineBreak) else TrimLine(l) + AfterBreak(x)
  {
    var s := l + ("\n" + x);
    var m := Lead(IsBlank, l);
    if m == |l| {
      LeadOfBlankLine(l, x);
    } else {
      LeadIs(IsBlank, s, m);
      assert s[m..] == l[m..] + ("\n" + x);
      LineBreakContinues(x);
      FirstLineInterior(l[m..], "\n" + x, AfterBreak(x), AsLineBreak);
      TrimEndingContent(l[m..], 0);
    }
  }

  lemma LastLine(l: Text)
    requires All(InLine, l)
    ensures BetweenRuns(l, AsLineBreak) == TrimLine(l)
  {
    var y: Text := [];
    forall b: Text | All(IsBlank, b) ensures Interior(b + y, AsLineBreak) == [] {
      InteriorTrail(b + y, AsLineBreak);
    }
    var t := l[Lead(IsBlank, l)..];
    FirstLineInterior(t, y, [], AsLineBreak);
    assert t + y == t;
  }

  lemma {:induction false} ContentLinesNonEmpty(ls: seq<Text>)
    ensures JoinLines(TrimmedNonEmpty(ls)) == [] <==> TrimmedNonEmpty(ls) == []
  {
    if ls != [] {
      ContentLinesNonEmpty(ls[1..]);
    }
  }

  lemma JoinFirst(l: Text, ls: seq<Text>)
    ensures JoinLines(TrimmedNonEmpty([l] + ls))
         == var rest := JoinLines(TrimmedNonEmpty(ls));
            if TrimLine(l) == [] then rest
            else TrimLine(l) + (if rest == [] then [] else "\n" + rest)
  {
    ContentLinesNonEmpty(ls);
    assert ([l] + ls)[1..] == ls;
    var t, kept := TrimLine(l), TrimmedNonEmpty(ls);
    if t == [] {
      assert [] + kept == kept;
    } else {
      assert TrimmedNonEmpty([l] + ls) == [t] + kept;
      assert ([t] + kept)[1..] == kept;
      if kept == [] {
        assert [t] + kept == [t];
      }
    }
  }

  /** Collapsing runs is the same as splitting, trimming, dropping empty lines and joining. */
  lemma {:induction false} RunsAreLines(s: Text)
    ensures BetweenRuns(s, AsLineBreak) == JoinLines(ContentLines(s))
  {
    var n := Lead(InLine, s);
    if n == |s| {
      LastLine(s);
      JoinFirst(s, []);
      assert [s] + [] == [s];
    } else {
      var l, x := s[..n], s[n + 1..];
      assert s == l + ("\n" + x);
      RunsAreLines(x);
      FirstLine(l, x);
      JoinFirst(l, SplitLines(x));
    }
  }
}
