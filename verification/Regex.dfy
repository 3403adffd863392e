/**
  The part of Go's regexp package that the normaliser needs: leftmost-first
  ("Perl-like") matching with greedy repetition and multi-line anchors, and
  ReplaceAll. For each position of the text, `Ways` lists the ends of all matches
  that start there, best match first; the package reports the first of them.
 */
module Regex {
  import opened Basics

  datatype Re =
    | Class(member: char -> bool)
    | BeginLine
    | EndLine
    | Cat(first: Re, second: Re)
    | Alt(first: Re, second: Re)
    | Star(body: Re)

  function Plus(re: Re): Re {
    Cat(re, Star(re))
  }

  /** For each position from 0 to the length of the text: where a match may end. */
  type Table = seq<seq<nat>>

  predicate Within(es: seq<nat>, lo: int, hi: int) {
    forall k | 0 <= k < |es| :: lo <= es[k] < hi
  }

  predicate Proper(t: Table) {
    forall i | 0 <= i < |t| :: Within(t[i], i, |t|)
  }

  /** The table whose row at i is f(i), from row `from` on. */
  function Tabulate(n: nat, f: nat --> seq<nat>, from: nat): (t: Table)
    requires from <= n && forall i | from <= i < n :: f.requires(i)
    ensures |t| == n - from
    decreases n - from
  {
    if from == n then [] else [f(from)] + Tabulate(n, f, from + 1)
  }

  lemma {:induction false} TabulateAt(n: nat, f: nat --> seq<nat>, from: nat, i: nat)
    requires from <= i < n && forall j | from <= j < n :: f.requires(j)
    ensures Tabulate(n, f, from)[i - from] == f(i)
    decreases n - from
  {
    if from < i {
      TabulateAt(n, f, from + 1, i);
    }
  }

  lemma TabulateProper(n: nat, f: nat --> seq<nat>)
    requires forall i | 0 <= i < n :: f.requires(i) && Within(f(i), i, n)
    ensures Proper(Tabulate(n, f, 0))
  {
    forall i | 0 <= i < n ensures Within(Tabulate(n, f, 0)[i], i, n) {
      TabulateAt(n, f, 0, i);
    }
  }

  // ---- one constructor at a time ----

  function ClassAt(p: char -> bool, s: Text, i: nat): seq<nat> {
    if i < |s| && p(s[i]) then [i + 1] else []
  }

  function ClassWays(p: char -> bool, s: Text): (t: Table)
    ensures |t| == |s| + 1 && Proper(t)
  {
    var f := i => ClassAt(p, s, i);
    TabulateProper(|s| + 1, f);
    Tabulate(|s| + 1, f, 0)
  }

  /** (?m)^ holds at the start of the text and after a newline. */
  predicate AtBeginLine(s: Text, i: nat)
    requires i <= |s|
  {
    i == 0 || s[i - 1] == '\n'
  }

  /** (?m)$ holds at the end of the text and before a newline. */
  predicate AtEndLine(s: Text, i: nat)
    requires i <= |s|
  {
    i == |s| || s[i] == '\n'
  }

  function BeginLineWays(s: Text): (t: Table)
    ensures |t| == |s| + 1 && Proper(t)
  {
    var f := i requires 0 <= i <= |s| => if AtBeginLine(s, i) then [i] else [];
    TabulateProper(|s| + 1, f);
    Tabulate(|s| + 1, f, 0)
  }

  function EndLineWays(s: Text): (t: Table)
    ensures |t| == |s| + 1 && Proper(t)
  {
    var f := i requires 0 <= i <= |s| => if AtEndLine(s, i) then [i] else [];
    TabulateProper(|s| + 1, f);
    Tabulate(|s| + 1, f, 0)
  }

  /** Go on from each of the given positions, in order. */
  function Onward(b: Table, starts: seq<nat>, lo: nat): (es: seq<nat>)
    requires Proper(b) && Within(starts, lo, |b|)
    ensures Within(es, lo, |b|)
  {
    if starts == [] then [] else b[starts[0]] + Onward(b, starts[1..], lo)
  }

  function CatWays(a: Table, b: Table): (t: Table)
    requires Proper(a) && Proper(b) && |a| == |b|
    ensures |t| == |a| && Proper(t)
  {
    var f := i requires 0 <= i < |a| => Onward(b, a[i], i);
    TabulateProper(|a|, f);
    Tabulate(|a|, f, 0)
  }

  function AltWays(a: Table, b: Table): (t: Table)
    requires Proper(a) && Proper(b) && |a| == |b|
    ensures |t| == |a| && Proper(t)
  {
    var f := i requires 0 <= i < |a| => a[i] + b[i];
    TabulateProper(|a|, f);
    Tabulate(|a|, f, 0)
  }

  /** A repetition never iterates on an empty match. */
  function Beyond(es: seq<nat>, i: nat, hi: nat): (r: seq<nat>)
    requires Within(es, i, hi)
    ensures Within(r, i + 1, hi)
  {
    if es == [] then []
    else (if es[0] > i then [es[0]] else []) + Beyond(es[1..], i, hi)
  }

  function OnwardStar(a: Table, starts: seq<nat>, lo: nat): (es: seq<nat>)
    requires Proper(a) && lo <= |a| && Within(starts, lo, |a|)
    ensures Within(es, lo, |a|)
    decreases |a| - lo, 1 + |starts|
  {
    if starts == [] then [] else StarAt(a, starts[0]) + OnwardStar(a, starts[1..], lo)
  }

  /** Greedy: iterate once more in every way first, stop here last. */
  function StarAt(a: Table, i: nat): (es: seq<nat>)
    requires Proper(a) && i < |a|
    ensures Within(es, i, |a|)
    decreases |a| - i, 0
  {
    var more := Beyond(a[i], i, |a|);
    (if more == [] then [] else OnwardStar(a, more, i + 1)) + [i]
  }

  function StarWays(a: Table): (t: Table)
    requires Proper(a)
    ensures |t| == |a| && Proper(t)
  {
    var f := i requires 0 <= i < |a| => StarAt(a, i);
    TabulateProper(|a|, f);
    Tabulate(|a|, f, 0)
  }

  /** The ends of the matches of re from each position of s, in order of preference. */
  function Ways(re: Re, s: Text): (t: Table)
    ensures |t| == |s| + 1 && Proper(t)
  {
    match re
    case Class(p) => ClassWays(p, s)
    case BeginLine => BeginLineWays(s)
    case EndLine => EndLineWays(s)
    case Cat(a, b) => CatWays(Ways(a, s), Ways(b, s))
    case Alt(a, b) => AltWays(Ways(a, s), Ways(b, s))
    case Star(a) => StarWays(Ways(a, s))
  }

  lemma ClassWaysAt(p: char -> bool, s: Text, i: nat)
    requires i <= |s|
    ensures ClassWays(p, s)[i] == ClassAt(p, s, i)
  {
    TabulateAt(|s| + 1, i => ClassAt(p, s, i), 0, i);
  }

  lemma BeginLineWaysAt(s: Text, i: nat)
    requires i <= |s|
    ensures BeginLineWays(s)[i] == if AtBeginLine(s, i) then [i] else []
  {
    TabulateAt(|s| + 1, i requires 0 <= i <= |s| => if AtBeginLine(s, i) then [i] else [], 0, i);
  }

  lemma EndLineWaysAt(s: Text, i: nat)
    requires i <= |s|
    ensures EndLineWays(s)[i] == if AtEndLine(s, i) then [i] else []
  {
    TabulateAt(|s| + 1, i requires 0 <= i <= |s| => if AtEndLine(s, i) then [i] else [], 0, i);
  }

  lemma CatWaysAt(a: Table, b: Table, i: nat)
    requires Proper(a) && Proper(b) && i < |a| == |b|
    ensures CatWays(a, b)[i] == Onward(b, a[i], i)
  {
    TabulateAt(|a|, i requires 0 <= i < |a| => Onward(b, a[i], i), 0, i);
  }

  lemma AltWaysAt(a: Table, b: Table, i: nat)
    requires Proper(a) && Proper(b) && i < |a| == |b|
    ensures AltWays(a, b)[i] == a[i] + b[i]
  {
    TabulateAt(|a|, i requires 0 <= i < |a| => a[i] + b[i], 0, i);
  }

  lemma StarWaysAt(a: Table, i: nat)
    requires Proper(a) && i < |a|
    ensures StarWays(a)[i] == StarAt(a, i)
  {
    TabulateAt(|a|, i requires 0 <= i < |a| => StarAt(a, i), 0, i);
  }

  // ---- search and replace ----

  function FirstOf(es: seq<nat>): Option<nat> {
    if es == [] then None else Some(es[0])
  }

  /** The leftmost match that starts at or after `from`. */
  function Find(t: Table, from: nat): (r: Option<(nat, nat)>)
    requires Proper(t) && from < |t|
    ensures r.Some? ==> from <= r.value.0 <= r.value.1 < |t|
    ensures r.Some? ==> FirstOf(t[r.value.0]) == Some(r.value.1)
    ensures forall j | from <= j < (if r.Some? then r.value.0 else |t|) :: t[j] == []
    decreases |t| - from
  {
    if t[from] != [] then Some((from, t[from][0]))
    else if from + 1 == |t| then None
    else Find(t, from + 1)
  }

  /** One turn of ReplaceAll's loop: `last` ends the previous match, `pos` is where to search. */
  function ReplaceFrom(t: Table, s: Text, last: nat, pos: nat, repl: Text): Text
    requires Proper(t) && |t| == |s| + 1
    requires last <= |s| && last <= pos <= |t|
    decreases |t| - pos
  {
    if pos > |s| then s[last..]
    else
      match Find(t, pos)
      case None => s[last..]
      case Some((a, b)) =>
        s[last..a] + (if b > last || a == 0 then repl else [])
        + ReplaceFrom(t, s, b, if b > pos then b else pos + 1, repl)
  }

  function ReplaceAll(re: Re, s: Text, repl: Text): Text {
    ReplaceFrom(Ways(re, s), s, 0, 0, repl)
  }

  // ---- expressions that never match the empty text ----

  ghost predicate NeverEmpty(t: Table) {
    forall i | 0 <= i < |t| :: FirstOf(t[i]) != Some(i)
  }

  /** A single left-to-right pass: rewrite a match where one starts, else copy one rune. */
  function Scan(t: Table, s: Text, i: nat, repl: Text): Text
    requires Proper(t) && |t| == |s| + 1 && i <= |s|
    decreases |s| - i
  {
    if i == |s| then []
    else if t[i] == [] then [s[i]] + Scan(t, s, i + 1, repl)
    else if t[i][0] > i then repl + Scan(t, s, t[i][0], repl)
    else []
  }

  lemma {:induction false} ScanCopies(t: Table, s: Text, i: nat, j: nat, repl: Text)
    requires Proper(t) && |t| == |s| + 1 && i <= j <= |s|
    requires forall k | i <= k < j :: t[k] == []
    ensures Scan(t, s, i, repl) == s[i..j] + Scan(t, s, j, repl)
    decreases j - i
  {
    if i == j {
      assert s[i..j] == [];
    } else {
      ScanCopies(t, s, i, j - 1, repl);
      assert t[j - 1] == [];
      assert s[i..j] == s[i..j - 1] + [s[j - 1]];
    }
  }

  lemma ReplaceMatch(t: Table, s: Text, pos: nat, repl: Text)
    requires Proper(t) && |t| == |s| + 1 && pos <= |s| && NeverEmpty(t) && Find(t, pos).Some?
    ensures var (a, b) := Find(t, pos).value;
            a < b && ReplaceFrom(t, s, pos, pos, repl) == s[pos..a] + (repl + ReplaceFrom(t, s, b, b, repl))
  {
    var (a, b) := Find(t, pos).value;
    assert FirstOf(t[a]) != Some(a);
    assert s[pos..a] + repl + ReplaceFrom(t, s, b, b, repl) == s[pos..a] + (repl + ReplaceFrom(t, s, b, b, repl));
  }

  lemma ScanToMatch(t: Table, s: Text, pos: nat, a: nat, b: nat, repl: Text)
    requires Proper(t) && |t| == |s| + 1 && pos <= a < b <= |s|
    requires forall k | pos <= k < a :: t[k] == []
    requires FirstOf(t[a]) == Some(b)
    ensures Scan(t, s, pos, repl) == s[pos..a] + (repl + Scan(t, s, b, repl))
  {
    ScanCopies(t, s, pos, a, repl);
  }

  /** On such expressions ReplaceAll is the single pass. */
  lemma {:induction false} ReplaceFromIsScan(t: Table, s: Text, pos: nat, repl: Text)
    requires Proper(t) && |t| == |s| + 1 && pos <= |s| && NeverEmpty(t)
    ensures ReplaceFrom(t, s, pos, pos, repl) == Scan(t, s, pos, repl)
    decreases |s| - pos
  {
    match Find(t, pos)
    case None =>
      ScanCopies(t, s, pos, |s|, repl);
      assert s[pos..|s|] == s[pos..];
    case Some((a, b)) =>
      ReplaceFromIsScan(t, s, b, repl);
      ReplaceMatch(t, s, pos, repl);
      ScanToMatch(t, s, pos, a, b, repl);
  }

  // ---- what follows a class, a repeated class, an anchor ----

  lemma OnwardOne(b: Table, i: nat, lo: nat)
    requires Proper(b) && lo <= i < |b|
    ensures Onward(b, [i], lo) == b[i]
  {
    var one: seq<nat> := [i];
    assert one[1..] == [];
    assert Onward(b, one, lo) == b[i] + Onward(b, one[1..], lo);
  }

  lemma {:induction false} OnwardAppend(b: Table, xs: seq<nat>, ys: seq<nat>, lo: nat)
    requires Proper(b) && Within(xs, lo, |b|) && Within(ys, lo, |b|)
    ensures Onward(b, xs + ys, lo) == Onward(b, xs, lo) + Onward(b, ys, lo)
  {
    if xs == [] {
      assert xs + ys == ys;
    } else {
      assert (xs + ys)[1..] == xs[1..] + ys;
      OnwardAppend(b, xs[1..], ys, lo);
    }
  }

  lemma {:induction false} OnwardLow(b: Table, xs: seq<nat>, lo: nat, lo': nat)
    requires Proper(b) && Within(xs, lo, |b|) && Within(xs, lo', |b|)
    ensures Onward(b, xs, lo) == Onward(b, xs, lo')
  {
    if xs != [] {
      OnwardLow(b, xs[1..], lo, lo');
    }
  }

  lemma OnwardSnoc(b: Table, xs: seq<nat>, i: nat)
    requires Proper(b) && i < |b| && Within(xs, i + 1, |b|)
    ensures Onward(b, xs + [i], i) == Onward(b, xs, i + 1) + b[i]
  {
    OnwardAppend(b, xs, [i], i);
    OnwardOne(b, i, i);
    OnwardLow(b, xs, i, i + 1);
  }

  lemma ClassThen(p: char -> bool, s: Text, k: Table, i: nat)
    requires Proper(k) && |k| == |s| + 1 && i <= |s|
    ensures CatWays(ClassWays(p, s), k)[i] == if i < |s| && p(s[i]) then k[i + 1] else []
  {
    ClassWaysAt(p, s, i);
    CatWaysAt(ClassWays(p, s), k, i);
    if i < |s| && p(s[i]) {
      OnwardOne(k, i + 1, i);
    }
  }

  lemma BeginLineThen(s: Text, k: Table, i: nat)
    requires Proper(k) && |k| == |s| + 1 && i <= |s|
    ensures CatWays(BeginLineWays(s), k)[i] == if AtBeginLine(s, i) then k[i] else []
  {
    BeginLineWaysAt(s, i);
    CatWaysAt(BeginLineWays(s), k, i);
    if AtBeginLine(s, i) {
      OnwardOne(k, i, i);
    }
  }

  /** p* first tries to take one more rune and, failing that, stops here. */
  lemma StarOfClass(p: char -> bool, s: Text, i: nat)
    requires i <= |s|
    ensures var a := ClassWays(p, s);
            StarAt(a, i) == if i < |s| && p(s[i]) then StarAt(a, i + 1) + [i] else [i]
  {
    var a := ClassWays(p, s);
    ClassWaysAt(p, s, i);
    if i < |s| && p(s[i]) {
      var next: seq<nat> := [i + 1];
      assert next[1..] == [];
      assert Beyond(next, i, |a|) == next + Beyond(next[1..], i, |a|);
      assert OnwardStar(a, next, i + 1) == StarAt(a, i + 1) + OnwardStar(a, next[1..], i + 1);
    }
  }

  /** p*k: the ways that take one more rune of p come first, then k right here. */
  ghost predicate StarStep(p: char -> bool, s: Text, k: Table, t: Table, i: nat)
    requires |k| == |t| == |s| + 1 && i <= |s|
  {
    t[i] == (if i < |s| && p(s[i]) then t[i + 1] else []) + k[i]
  }

  /** The two rows of the table of p*k that a further rune of p connects. */
  lemma StarTakes(k: Table, t: Table, es: seq<nat>, i: nat)
    requires Proper(k) && |t| == |k| && i + 1 < |k| && Within(es, i + 1, |k|) && Within(es + [i], i, |k|)
    requires t[i] == Onward(k, es + [i], i) && t[i + 1] == Onward(k, es, i + 1)
    ensures t[i] == t[i + 1] + k[i]
  {
    OnwardSnoc(k, es, i);
  }

  lemma StarThenAt(p: char -> bool, s: Text, k: Table, i: nat)
    requires Proper(k) && |k| == |s| + 1 && i <= |s|
    ensures var a := ClassWays(p, s);
            CatWays(StarWays(a), k)[i] == Onward(k, StarAt(a, i), i)
  {
    var a := ClassWays(p, s);
    StarWaysAt(a, i);
    CatWaysAt(StarWays(a), k, i);
  }

  lemma StarThenMore(p: char -> bool, s: Text, k: Table, i: nat)
    requires Proper(k) && |k| == |s| + 1 && i < |s| && p(s[i])
    ensures var t := CatWays(StarWays(ClassWays(p, s)), k); t[i] == t[i + 1] + k[i]
  {
    var a := ClassWays(p, s);
    StarThenAt(p, s, k, i);
    StarThenAt(p, s, k, i + 1);
    StarOfClass(p, s, i);
    StarTakes(k, CatWays(StarWays(a), k), StarAt(a, i + 1), i);
  }

  lemma StarThenStop(p: char -> bool, s: Text, k: Table, i: nat)
    requires Proper(k) && |k| == |s| + 1 && i <= |s| && (i < |s| ==> !p(s[i]))
    ensures CatWays(StarWays(ClassWays(p, s)), k)[i] == k[i]
  {
    StarThenAt(p, s, k, i);
    StarOfClass(p, s, i);
    OnwardOne(k, i, i);
  }

  lemma StarThen(p: char -> bool, s: Text, k: Table, i: nat)
    requires Proper(k) && |k| == |s| + 1 && i <= |s|
    ensures StarStep(p, s, k, CatWays(StarWays(ClassWays(p, s)), k), i)
  {
    if i < |s| && p(s[i]) {
      StarThenMore(p, s, k, i);
    } else {
      StarThenStop(p, s, k, i);
    }
  }

  /** p+k is one rune of p followed by p*k. */
  lemma PlusThen(p: char -> bool, s: Text, k: Table, i: nat)
    requires Proper(k) && |k| == |s| + 1 && i <= |s|
    ensures var a := ClassWays(p, s);
            CatWays(CatWays(a, StarWays(a)), k)[i]
              == if i < |s| && p(s[i]) then CatWays(StarWays(a), k)[i + 1] else []
  {
    var a := ClassWays(p, s);
    CatWaysAt(CatWays(a, StarWays(a)), k, i);
    ClassThen(p, s, StarWays(a), i);
    if i < |s| && p(s[i]) {
      StarThenAt(p, s, k, i + 1);
      StarWaysAt(a, i + 1);
      OnwardLow(k, StarAt(a, i + 1), i, i + 1);
    }
  }
}
