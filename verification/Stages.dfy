/** What Process makes of a fetched body, stage by stage, in terms of the libraries it calls. */
module Stages {
  import opened Basics
  import opened Config
  import opened Regex
  import opened Watch
  import opened Whitespace

  lemma FetchErrors(w: Watch, cfg: Configuration, libs: Libraries, net: Network)
    requires cfg.retry.count >= 1
    ensures var fetched := Fetched(Taken(w, cfg, libs), cfg.retry, net);
            && (fetched == Err(ContextDone) ==> Processed(w, cfg, libs, net) == Err(Cancelled))
            && (forall invalid | fetched == Err(InvalidResponse(invalid)) ::
                  Processed(w, cfg, libs, net) == Err(Rejected(invalid)))
  {
  }

  lemma ReplacedSnoc(rs: seq<Replace>, last: Replace, libs: Libraries, body: Text)
    ensures Replaced(rs + [last], libs, body) == libs.replaceAll(last.re, Replaced(rs, libs, body), last.replaceWith)
  {
    assert (rs + [last])[..|rs|] == rs;
  }

  lemma {:induction false} ReplacedIs(rs: seq<Replace>, libs: Libraries, texts: seq<Text>, n: nat)
    requires |texts| == |rs| + 1 && n <= |rs|
    requires forall i | 0 <= i < |rs| :: texts[i + 1] == libs.replaceAll(rs[i].re, texts[i], rs[i].replaceWith)
    ensures Replaced(rs[..n], libs, texts[0]) == texts[n]
  {
    if n > 0 {
      ReplacedIs(rs, libs, texts, n - 1);
      assert rs[..n] == rs[..n - 1] + [rs[n - 1]];
      ReplacedSnoc(rs[..n - 1], rs[n - 1], libs, texts[0]);
      assert texts[n] == libs.replaceAll(rs[n - 1].re, texts[n - 1], rs[n - 1].replaceWith);
    }
  }

  /**
    The body goes through four stages in this order: a part of the page is taken, it
    is transformed, every replacement applies to the result of the one before, and
    the empty-line pass runs before the trim pass, each if its flag is set.
   */
  lemma ProcessedIs(w: Watch, cfg: Configuration, libs: Libraries, net: Network, r: Response,
                    part: Text, transformed: Text, texts: seq<Text>)
    requires cfg.retry.count >= 1 && Fetched(Taken(w, cfg, libs), cfg.retry, net) == Ok(r)
    requires w.pattern != "" ==> libs.extract(w.pattern, r.body) == Some(part)
    requires w.pattern == "" && w.extractBody ==> libs.extract("body", r.body) == Some(part)
    requires w.pattern == "" && !w.extractBody ==> part == r.body
    requires w.jq != "" ==> libs.jq(w.jq, part) == Some(transformed)
    requires w.jq == "" && w.parseRSS ==> libs.rss(part) == Some(transformed)
    requires w.jq == "" && !w.parseRSS && w.html2text ==> libs.html2text(part) == Some(transformed)
    requires w.jq == "" && !w.parseRSS && !w.html2text ==> transformed == part
    requires |texts| == |w.replacements| + 1 && texts[0] == transformed
    requires forall i | 0 <= i < |w.replacements| ::
               texts[i + 1] == libs.replaceAll(w.replacements[i].re, texts[i], w.replacements[i].replaceWith)
    ensures var replaced := texts[|w.replacements|];
            var dense := if w.removeEmptyLines then ReplaceAll(EmptyLineRegex(), replaced, "\n") else replaced;
            var trimmed := if w.trimWhitespace then ReplaceAll(TrimRegex(), dense, "") else dense;
            Processed(w, cfg, libs, net) == Ok(Response(r.status, trimmed))
  {
    ReplacedIs(w.replacements, libs, texts, |w.replacements|);
    assert w.replacements[..|w.replacements|] == w.replacements;
  }

  /** Only taking the part and transforming it can fail. */
  lemma StageFails(w: Watch, cfg: Configuration, libs: Libraries, net: Network, r: Response, part: Text)
    requires cfg.retry.count >= 1 && Fetched(Taken(w, cfg, libs), cfg.retry, net) == Ok(r)
    ensures w.pattern != "" && libs.extract(w.pattern, r.body) == None ==>
              Processed(w, cfg, libs, net) == Err(StageFailed)
    ensures w.pattern == "" && w.extractBody && libs.extract("body", r.body) == None ==>
              Processed(w, cfg, libs, net) == Err(StageFailed)
    ensures && (if w.pattern != "" then libs.extract(w.pattern, r.body) == Some(part)
                else if w.extractBody then libs.extract("body", r.body) == Some(part)
                else part == r.body)
            && (if w.jq != "" then libs.jq(w.jq, part) == None
                else if w.parseRSS then libs.rss(part) == None
                else w.html2text && libs.html2text(part) == None)
            ==> Processed(w, cfg, libs, net) == Err(StageFailed)
  {
  }

  // ---- single options ----

  predicate NoOption(w: Watch) {
    && w.pattern == "" && !w.extractBody && w.jq == "" && !w.parseRSS && !w.html2text && w.replacements == []
    && !w.removeEmptyLines && !w.trimWhitespace
  }

  function OkOrFailed(status: int, body: Option<Text>): Result<Response, ProcessError> {
    match body
    case None => Err(StageFailed)
    case Some(b) => Ok(Response(status, b))
  }

  lemma OneReplacement(rc: Replace, libs: Libraries, body: Text)
    ensures Replaced([rc], libs, body) == libs.replaceAll(rc.re, body, rc.replaceWith)
  {
    ReplacedSnoc([], rc, libs, body);
    assert [] + [rc] == [rc];
  }

  lemma ProcessedPrepared(w: Watch, cfg: Configuration, libs: Libraries, net: Network, r: Response)
    requires cfg.retry.count >= 1 && Fetched(Taken(w, cfg, libs), cfg.retry, net) == Ok(r)
    ensures Processed(w, cfg, libs, net) == OkOrFailed(r.status, Prepared(w, libs, r.body))
  {
  }

  /** A part of the page and nothing else, or the page as it is. */
  lemma PartAlone(w: Watch, cfg: Configuration, libs: Libraries, net: Network, r: Response)
    requires cfg.retry.count >= 1 && Fetched(Taken(w, cfg, libs), cfg.retry, net) == Ok(r)
    ensures NoOption(w) ==> Processed(w, cfg, libs, net) == Ok(r)
    ensures w.pattern != "" && NoOption(w.(pattern := "")) ==>
              Processed(w, cfg, libs, net) == OkOrFailed(r.status, libs.extract(w.pattern, r.body))
    ensures w.extractBody && NoOption(w.(extractBody := false)) ==>
              Processed(w, cfg, libs, net) == OkOrFailed(r.status, libs.extract("body", r.body))
  {
    ProcessedPrepared(w, cfg, libs, net, r);
  }

  /** One transformation and nothing else. */
  lemma TransformationAlone(w: Watch, cfg: Configuration, libs: Libraries, net: Network, r: Response)
    requires cfg.retry.count >= 1 && Fetched(Taken(w, cfg, libs), cfg.retry, net) == Ok(r)
    ensures w.jq != "" && NoOption(w.(jq := "")) ==>
              Processed(w, cfg, libs, net) == OkOrFailed(r.status, libs.jq(w.jq, r.body))
    ensures w.parseRSS && NoOption(w.(parseRSS := false)) ==>
              Processed(w, cfg, libs, net) == OkOrFailed(r.status, libs.rss(r.body))
    ensures w.html2text && NoOption(w.(html2text := false)) ==>
              Processed(w, cfg, libs, net) == OkOrFailed(r.status, libs.html2text(r.body))
  {
    ProcessedPrepared(w, cfg, libs, net, r);
  }

  /** One replacement and nothing else. */
  lemma ReplacementAlone(w: Watch, cfg: Configuration, libs: Libraries, net: Network, r: Response, rc: Replace)
    requires cfg.retry.count >= 1 && Fetched(Taken(w, cfg, libs), cfg.retry, net) == Ok(r)
    requires w.replacements == [rc] && NoOption(w.(replacements := []))
    ensures Processed(w, cfg, libs, net) == Ok(Response(r.status, libs.replaceAll(rc.re, r.body, rc.replaceWith)))
  {
    ProcessedPrepared(w, cfg, libs, net, r);
    OneReplacement(rc, libs, r.body);
  }

  /** One cleanup pass and nothing else. */
  lemma CleanupAlone(w: Watch, cfg: Configuration, libs: Libraries, net: Network, r: Response)
    requires cfg.retry.count >= 1 && Fetched(Taken(w, cfg, libs), cfg.retry, net) == Ok(r)
    ensures w.removeEmptyLines && NoOption(w.(removeEmptyLines := false)) ==>
              Processed(w, cfg, libs, net) == Ok(Response(r.status, ReplaceAll(EmptyLineRegex(), r.body, "\n")))
    ensures w.trimWhitespace && NoOption(w.(trimWhitespace := false)) ==>
              Processed(w, cfg, libs, net) == Ok(Response(r.status, ReplaceAll(TrimRegex(), r.body, "")))
  {
    ProcessedPrepared(w, cfg, libs, net, r);
  }

  /** A pattern, html2text, two replacements and both flags together. */
  lemma OptionsTogether(w: Watch, cfg: Configuration, libs: Libraries, net: Network, r: Response,
                        a: Replace, b: Replace, part: Text, plain: Text)
    requires cfg.retry.count >= 1 && Fetched(Taken(w, cfg, libs), cfg.retry, net) == Ok(r)
    requires w.pattern != "" && w.jq == "" && !w.parseRSS && w.html2text && w.replacements == [a, b]
    requires w.removeEmptyLines && w.trimWhitespace
    requires libs.extract(w.pattern, r.body) == Some(part) && libs.html2text(part) == Some(plain)
    ensures var once := libs.replaceAll(a.re, plain, a.replaceWith);
            var twice := libs.replaceAll(b.re, once, b.replaceWith);
            Processed(w, cfg, libs, net)
            == Ok(Response(r.status, ReplaceAll(TrimRegex(), ReplaceAll(EmptyLineRegex(), twice, "\n"), "")))
  {
    var once := libs.replaceAll(a.re, plain, a.replaceWith);
    var texts := [plain, once, libs.replaceAll(b.re, once, b.replaceWith)];
    ProcessedIs(w, cfg, libs, net, r, part, plain, texts);
  }
}
