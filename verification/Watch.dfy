/** Fetching a page with retries and turning it into the text that is compared. */
module Watch {
  import opened Basics
  import opened Config
  import NormalForm

  datatype Replace = Replace(pattern: string, replaceWith: Text, re: Regexp)

  datatype Watch = Watch(
    key: Key,
    cron: string,
    description: string,
    verb: string,
    requestBody: string,
    header: map<string, string>,
    additionalTo: seq<string>,
    noErrorMailOnStatusCode: seq<int>,
    disabled: bool,
    pattern: string,
    replacements: seq<Replace>,
    retryOnMatch: seq<string>,
    compiledRetryOnMatch: seq<Regexp>,
    skipSofterrorPatterns: bool,
    jq: string,
    extractBody: bool,
    userAgent: string,
    removeEmptyLines: bool,
    trimWhitespace: bool,
    webhooks: seq<WebhookConfig>,
    html2text: bool,
    parseRSS: bool,
    insecureSkipVerify: bool)

  /** What the libraries behind Process compute; None is an error. */
  datatype Libraries = Libraries(
    matches: (Regexp, Text) -> bool,
    replaceAll: (Regexp, Text, Text) -> Text,
    extract: (string, Text) -> Option<Text>,
    jq: (string, Text) -> Option<Text>,
    rss: Text -> Option<Text>,
    html2text: Text -> Option<Text>)

  function CompiledReplace(rc: ReplaceConfig): Replace {
    Replace(rc.pattern, rc.replaceWith, Regexp(rc.pattern))
  }

  function CompiledReplaces(rs: seq<ReplaceConfig>): seq<Replace> {
    seq(|rs|, i requires 0 <= i < |rs| => CompiledReplace(rs[i]))
  }

  function CompiledPatterns(ps: seq<string>): seq<Regexp> {
    seq(|ps|, i requires 0 <= i < |ps| => Regexp(ps[i]))
  }

  /** The watch of a configuration entry; each list of expressions belongs to its list of texts. */
  function Built(c: WatchConfig): Watch {
    Watch(KeyOf(c), c.cron, c.description, if c.verb == "" then "GET" else c.verb, c.body, c.header,
          c.additionalTo, c.noErrorMailOnStatusCode, c.disabled, c.pattern, CompiledReplaces(c.replacements),
          c.retryOnMatch, CompiledPatterns(c.retryOnMatch), c.skipSofterrorPatterns, c.jq, c.extractBody,
          c.useragent, c.removeEmptyLines, c.trimWhitespace, c.webhooks, c.html2text, c.parseRSS,
          c.insecureSkipVerify)
  }

  /** The slice is made first and filled index by index. */
  method CompileReplaces(rs: seq<ReplaceConfig>) returns (r: seq<Replace>)
    ensures r == CompiledReplaces(rs)
  {
    r := seq(|rs|, _ => Replace("", "", Regexp("")));
    for i := 0 to |rs|
      invariant |r| == |rs| && forall k | 0 <= k < i :: r[k] == CompiledReplace(rs[k])
    {
      r := r[i := CompiledReplace(rs[i])];
    }
  }

  /** The slice grows. */
  method CompilePatterns(ps: seq<string>) returns (r: seq<Regexp>)
    ensures r == CompiledPatterns(ps) && Aligned(r, ps)
  {
    r := [];
    for i := 0 to |ps|
      invariant |r| == i && forall k | 0 <= k < i :: r[k] == Regexp(ps[k])
    {
      r := r + [Regexp(ps[i])];
    }
  }

  method New(c: WatchConfig) returns (w: Watch)
    ensures w == Built(c) && Aligned(w.compiledRetryOnMatch, w.retryOnMatch)
    ensures w.key == Key(c.name, c.url) && w.cron == c.cron && w.description == c.description
    ensures w.verb == (if c.verb == "" then "GET" else c.verb) && w.requestBody == c.body && w.header == c.header
    ensures w.additionalTo == c.additionalTo && w.noErrorMailOnStatusCode == c.noErrorMailOnStatusCode
    ensures w.disabled == c.disabled && w.pattern == c.pattern && w.retryOnMatch == c.retryOnMatch
    ensures w.skipSofterrorPatterns == c.skipSofterrorPatterns && w.jq == c.jq && w.extractBody == c.extractBody
    ensures w.userAgent == c.useragent && w.removeEmptyLines == c.removeEmptyLines
    ensures w.trimWhitespace == c.trimWhitespace && w.webhooks == c.webhooks && w.html2text == c.html2text
    ensures w.parseRSS == c.parseRSS && w.insecureSkipVerify == c.insecureSkipVerify
    ensures |w.replacements| == |c.replacements| && forall i | 0 <= i < |c.replacements| ::
              w.replacements[i] == Replace(c.replacements[i].pattern, c.replacements[i].replaceWith,
                                           Regexp(c.replacements[i].pattern))
  {
    var verb := c.verb;
    if verb == "" {
      verb := "GET";
    }
    var replacements := CompileReplaces(c.replacements);
    var compiled := CompilePatterns(c.retryOnMatch);
    w := Watch(KeyOf(c), c.cron, c.description, verb, c.body, c.header, c.additionalTo, c.noErrorMailOnStatusCode,
               c.disabled, c.pattern, replacements, c.retryOnMatch, compiled, c.skipSofterrorPatterns, c.jq,
               c.extractBody, c.useragent, c.removeEmptyLines, c.trimWhitespace, c.webhooks, c.html2text,
               c.parseRSS, c.insecureSkipVerify);
  }

  // ---- is the answer worth a retry? ----

  datatype Response = Response(status: int, body: Text)

  datatype Cause =
    | StatusCode(code: int)
    | Hardcoded(text: Text)
    | GlobalPattern(pattern: string)
    | WatchPattern(pattern: string)

  // Texts of error pages that come with status 200, by position.
  const SOFT_ERROR_COUNT := 13

  function SoftErrorText(k: nat): Text {
    match k
    case 0 => "504 - Gateway Time-out"
    case 1 => "404 - Not Found"
    case 2 => "503 - Service Unavailable"
    case 3 => "<h1>503 Service Unavailable</h1>"
    case 4 => "<h1>403 Forbidden</h1>"
    case 5 => "<h1>404 Not Found</h1>"
    case 6 => "<h1>405 Not Allowed</h1>"
    case 7 => "<h1>429 Too Many Requests</h1>"
    case 8 => "<h1>500 Internal Server Error</h1>"
    case 9 => "<h1>502 Bad Gateway</h1>"
    case 10 => "<h1>503 Service Temporarily Unavailable</h1>"
    case 11 => "Faithfully yours, nginx."
    case _ => "<!-- a padding to disable MSIE and Chrome friendly error page -->"
  }

  function SoftErrors(): seq<Text> {
    seq(SOFT_ERROR_COUNT, SoftErrorText)
  }

  predicate Contains(body: Text, part: Text) {
    exists i | 0 <= i <= |body| :: part <= body[i..]
  }

  /** Index of the first element with the property. */
  ghost predicate IsFirst<T>(xs: seq<T>, p: T -> bool, i: int) {
    0 <= i < |xs| && p(xs[i]) && forall k | 0 <= k < i :: !p(xs[k])
  }

  ghost predicate NoneHas<T>(xs: seq<T>, p: T -> bool) {
    forall k | 0 <= k < |xs| :: !p(xs[k])
  }

  method FirstIndex<T>(xs: seq<T>, p: T -> bool) returns (r: Option<nat>)
    ensures match r case Some(i) => IsFirst(xs, p, i) case None => NoneHas(xs, p)
  {
    for i := 0 to |xs|
      invariant forall k | 0 <= k < i :: !p(xs[k])
    {
      if p(xs[i]) {
        return Some(i);
      }
    }
    return None;
  }

  ghost predicate SoftError(w: Watch, body: Text) {
    !w.skipSofterrorPatterns && exists p | p in SoftErrors() :: Contains(body, p)
  }

  ghost predicate PatternMatches(ps: seq<string>, libs: Libraries, body: Text) {
    exists p | p in ps :: libs.matches(Regexp(p), body)
  }

  /** The answer is not taken: wrong status, a known error page, or a configured pattern. */
  ghost predicate RetryWanted(w: Watch, cfg: Configuration, libs: Libraries, r: Response) {
    || r.status != 200
    || (r.body != []
        && (SoftError(w, r.body)
            || PatternMatches(cfg.retryOnMatch, libs, r.body)
            || PatternMatches(w.retryOnMatch, libs, r.body)))
  }

  /** p is the first pattern of the list that matches. */
  ghost predicate FirstMatch(ps: seq<string>, libs: Libraries, body: Text, p: string) {
    exists i | 0 <= i < |ps| ::
      ps[i] == p && libs.matches(Regexp(p), body) && forall k | 0 <= k < i :: !libs.matches(Regexp(ps[k]), body)
  }

  ghost predicate FirstContained(ps: seq<Text>, body: Text, p: Text) {
    exists i | 0 <= i < |ps| :: ps[i] == p && Contains(body, p) && forall k | 0 <= k < i :: !Contains(body, ps[k])
  }

  /** The reported cause is the first that applies: status, known error pages, global patterns, watch patterns. */
  ghost predicate CauseHolds(w: Watch, cfg: Configuration, libs: Libraries, r: Response, c: Cause) {
    match c
    case StatusCode(code) => r.status == code != 200
    case Hardcoded(p) => r.status == 200 && !w.skipSofterrorPatterns && FirstContained(SoftErrors(), r.body, p)
    case GlobalPattern(p) =>
      r.status == 200 && !SoftError(w, r.body) && FirstMatch(cfg.retryOnMatch, libs, r.body, p)
    case WatchPattern(p) =>
      r.status == 200 && !SoftError(w, r.body) && !PatternMatches(cfg.retryOnMatch, libs, r.body)
      && FirstMatch(w.retryOnMatch, libs, r.body, p)
  }

  lemma FirstContains(ps: seq<Text>, body: Text, i: nat)
    requires IsFirst(ps, p => Contains(body, p), i)
    ensures FirstContained(ps, body, ps[i])
  {
    forall k | 0 <= k < i ensures !Contains(body, ps[k]) {
      assert !(p => Contains(body, p))(ps[k]);
    }
  }

  lemma FirstMatches(rs: seq<Regexp>, ps: seq<string>, libs: Libraries, body: Text, i: nat)
    requires Aligned(rs, ps) && IsFirst(rs, re => libs.matches(re, body), i)
    ensures i < |ps| && FirstMatch(ps, libs, body, ps[i])
  {
    forall k | 0 <= k < i ensures !libs.matches(Regexp(ps[k]), body) {
      assert !(re => libs.matches(re, body))(rs[k]);
    }
  }

  lemma NoneMatches(rs: seq<Regexp>, ps: seq<string>, libs: Libraries, body: Text)
    requires Aligned(rs, ps) && NoneHas(rs, re => libs.matches(re, body))
    ensures !PatternMatches(ps, libs, body)
  {
    forall p | p in ps ensures !libs.matches(Regexp(p), body) {
      var k :| 0 <= k < |ps| && ps[k] == p;
      assert !(re => libs.matches(re, body))(rs[k]);
    }
  }

  /**
    The reported pattern is read from the uncompiled list at the index of the
    compiled expression that matched; the lists' alignment keeps it in bounds.
   */
  method ShouldRetry(w: Watch, cfg: Configuration, libs: Libraries, r: Response)
    returns (retry: bool, cause: Option<Cause>)
    requires Aligned(cfg.compiledRetryOnMatch, cfg.retryOnMatch)
    requires Aligned(w.compiledRetryOnMatch, w.retryOnMatch)
    ensures retry <==> RetryWanted(w, cfg, libs, r)
    ensures retry == cause.Some?
    ensures retry ==> CauseHolds(w, cfg, libs, r, cause.value)
  {
    if r.status != 200 {
      return true, Some(StatusCode(r.status));
    }
    if |r.body| == 0 {
      return false, None;
    }
    if !w.skipSofterrorPatterns {
      var i := FirstIndex(SoftErrors(), p => Contains(r.body, p));
      if i.Some? {
        FirstContains(SoftErrors(), r.body, i.value);
        return true, Some(Hardcoded(SoftErrors()[i.value]));
      }
    }
    assert !SoftError(w, r.body);
    var g := FirstIndex(cfg.compiledRetryOnMatch, re => libs.matches(re, r.body));
    if g.Some? {
      FirstMatches(cfg.compiledRetryOnMatch, cfg.retryOnMatch, libs, r.body, g.value);
      return true, Some(GlobalPattern(cfg.retryOnMatch[g.value]));
    }
    assert !PatternMatches(cfg.retryOnMatch, libs, r.body) by {
      NoneMatches(cfg.compiledRetryOnMatch, cfg.retryOnMatch, libs, r.body);
    }
    var m := FirstIndex(w.compiledRetryOnMatch, re => libs.matches(re, r.body));
    if m.Some? {
      FirstMatches(w.compiledRetryOnMatch, w.retryOnMatch, libs, r.body, m.value);
      return true, Some(WatchPattern(w.retryOnMatch[m.value]));
    }
    NoneMatches(w.compiledRetryOnMatch, w.retryOnMatch, libs, r.body);
    return false, None;
  }

  lemma ContainsIff(body: Text, part: Text)
    ensures Contains(body, part) <==> exists a: Text, b: Text :: body == a + part + b
  {
    if i :| 0 <= i <= |body| && part <= body[i..] {
      assert body == body[..i] + part + body[i + |part|..];
    }
    if a: Text, b: Text :| body == a + part + b {
      assert body[|a|..] == part + b;
    }
  }

  // ---- the retry loop ----

  datatype Attempt = NoAnswer(timeout: bool) | Answer(response: Response)

  /** Try number to outcome, and whether the context is done during the delay before a try. */
  datatype Network = Network(attempt: nat -> Attempt, cancelled: nat -> bool)

  datatype Reason = TransportError(attempt: Attempt) | ResponseError(response: Response)

  /** What InvalidResponseError reports; its status is 0 and its body empty without an answer. */
  datatype Invalid = Invalid(reason: Reason, status: int, body: Text)

  /** `Raw` is the error of a try as it came, which the code after the retry loop would return. */
  datatype FetchError = ContextDone | InvalidResponse(invalid: Invalid) | Raw(timeout: bool)

  /** The test that ends the loop: an answer that needs no retry. */
  ghost function Taken(w: Watch, cfg: Configuration, libs: Libraries): Response -> bool {
    r => !RetryWanted(w, cfg, libs, r)
  }

  /**
    An answer is taken if and only if its status is 200 and its body is empty or holds
    none of the known error texts, unless they are skipped, and matches no pattern.
   */
  lemma TakenIff(w: Watch, cfg: Configuration, libs: Libraries, r: Response)
    ensures Taken(w, cfg, libs)(r) <==>
              && r.status == 200
              && (r.body == []
                  || (&& (w.skipSofterrorPatterns
                          || forall p, a: Text, b: Text | p in SoftErrors() :: r.body != a + p + b)
                      && (forall p | p in cfg.retryOnMatch :: !libs.matches(Regexp(p), r.body))
                      && (forall p | p in w.retryOnMatch :: !libs.matches(Regexp(p), r.body))))
  {
    forall p ensures Contains(r.body, p) <==> exists a: Text, b: Text :: r.body == a + p + b {
      ContainsIff(r.body, p);
    }
  }

  predicate Good(good: Response -> bool, a: Attempt) {
    a.Answer? && good(a.response)
  }

  /** The context is done in the delay before try i; without a delay nobody looks. */
  predicate Interrupted(retry: RetryConfig, net: Network, i: nat) {
    i > 1 && retry.delay > 0 && net.cancelled(i)
  }

  /** Tries 1 to i - 1 were all bad and every delay up to try i was sat out. */
  ghost predicate Reached(good: Response -> bool, retry: RetryConfig, net: Network, i: nat) {
    && (forall k | 1 <= k < i :: !Good(good, net.attempt(k)))
    && (forall k | 1 <= k <= i :: !Interrupted(retry, net, k))
  }

  /** The error built from the last try and from nothing else. */
  function LastError(a: Attempt): FetchError {
    match a
    case NoAnswer(_) => InvalidResponse(Invalid(TransportError(a), 0, []))
    case Answer(r) => InvalidResponse(Invalid(ResponseError(r), r.status, r.body))
  }

  /** All that can come out of fetching. */
  ghost predicate FetchOutcome(good: Response -> bool, retry: RetryConfig, net: Network,
                               r: Result<Response, FetchError>)
  {
    match r
    case Ok(resp) =>
      exists i | 1 <= i <= retry.count ::
        Reached(good, retry, net, i) && Good(good, net.attempt(i)) && net.attempt(i).response == resp
    case Err(ContextDone) =>
      exists i | 2 <= i <= retry.count ::
        Reached(good, retry, net, i - 1) && !Good(good, net.attempt(i - 1)) && Interrupted(retry, net, i)
    case Err(e) =>
      var n := retry.count;
      && n >= 1 && Reached(good, retry, net, n) && !Good(good, net.attempt(n))
      && e.InvalidResponse? && match net.attempt(n)
                               case NoAnswer(_) => e.invalid == Invalid(TransportError(net.attempt(n)), 0, [])
                               case Answer(r) => e.invalid == Invalid(ResponseError(r), r.status, r.body)
  }

  /** What the code after the loop makes of the last try. */
  function Tail(a: Attempt): FetchError {
    match a
    case NoAnswer(timeout) => Raw(timeout)
    case Answer(r) => InvalidResponse(Invalid(ResponseError(r), r.status, r.body))
  }

  /** The loop from try i on, and the code after it. */
  ghost function FetchFrom(good: Response -> bool, retry: RetryConfig, net: Network, i: nat)
    : Result<Response, FetchError>
    requires 1 <= i <= retry.count + 1
    decreases retry.count - i
  {
    if i > retry.count then Err(Tail(net.attempt(i - 1)))
    else if Interrupted(retry, net, i) then Err(ContextDone)
    else if Good(good, net.attempt(i)) then Ok(net.attempt(i).response)
    else if i != retry.count then FetchFrom(good, retry, net, i + 1)
    else Err(LastError(net.attempt(i)))
  }

  ghost function Fetched(good: Response -> bool, retry: RetryConfig, net: Network): Result<Response, FetchError>
    requires retry.count >= 1
  {
    FetchFrom(good, retry, net, 1)
  }

  /**
    The code after the loop is never reached: the last turn returns. `ret` and `err`
    are overwritten by each try, so no earlier answer is reported.
   */
  method CheckWithRetries(w: Watch, cfg: Configuration, libs: Libraries, net: Network)
    returns (r: Result<Response, FetchError>)
    requires cfg.retry.count >= 1
    requires Aligned(cfg.compiledRetryOnMatch, cfg.retryOnMatch)
    requires Aligned(w.compiledRetryOnMatch, w.retryOnMatch)
    ensures r == Fetched(Taken(w, cfg, libs), cfg.retry, net)
  {
    ghost var good := Taken(w, cfg, libs);
    var retry := cfg.retry;
    var retries := retry.count;
    r := Err(ContextDone);
    var i: nat := 1;
    while i <= retries
      invariant 1 <= i <= retries
      invariant FetchFrom(good, retry, net, i) == Fetched(good, retry, net)
      decreases retries - i
    {
      if i > 1 {
        if retry.delay > 0 {
          if net.cancelled(i) {
            return Err(ContextDone);
          }
        }
      }
      var attempt := net.attempt(i);
      match attempt {
        case NoAnswer(_) =>
          if i == retries {
            return Err(InvalidResponse(Invalid(TransportError(attempt), 0, [])));
          }
        case Answer(ret) =>
          var retryResult, _ := ShouldRetry(w, cfg, libs, ret);
          if !retryResult {
            return Ok(ret);
          }
          if i == retries {
            return Err(InvalidResponse(Invalid(ResponseError(ret), ret.status, ret.body)));
          }
      }
      i := i + 1;
    }
    assert false;
  }

  lemma {:induction false} FetchFromOutcome(good: Response -> bool, retry: RetryConfig, net: Network, i: nat)
    requires 1 <= i <= retry.count
    requires Reached(good, retry, net, i - 1) && (i > 1 ==> !Good(good, net.attempt(i - 1)))
    ensures FetchOutcome(good, retry, net, FetchFrom(good, retry, net, i))
    decreases retry.count - i
  {
    if !Interrupted(retry, net, i) {
      assert Reached(good, retry, net, i);
      if !Good(good, net.attempt(i)) && i < retry.count {
        FetchFromOutcome(good, retry, net, i + 1);
      }
    }
  }

  lemma {:induction false} OutcomeIsFetched(good: Response -> bool, retry: RetryConfig, net: Network, i: nat,
                                            r: Result<Response, FetchError>)
    requires 1 <= i <= retry.count && FetchOutcome(good, retry, net, r)
    requires Reached(good, retry, net, i - 1) && (i > 1 ==> !Good(good, net.attempt(i - 1)))
    ensures r == FetchFrom(good, retry, net, i)
    decreases retry.count - i
  {
    if Interrupted(retry, net, i) {
    } else if Good(good, net.attempt(i)) {
    } else if i < retry.count {
      OutcomeIsFetched(good, retry, net, i + 1, r);
    }
  }

  /**
    Fetching returns the first answer that is good, or after exactly `count` tries an
    error about the last of them, or the context's error in a delay; and which of
    these it is is determined by the answers.
   */
  lemma FetchedIff(good: Response -> bool, retry: RetryConfig, net: Network, r: Result<Response, FetchError>)
    requires retry.count >= 1
    ensures r == Fetched(good, retry, net) <==> FetchOutcome(good, retry, net, r)
  {
    FetchFromOutcome(good, retry, net, 1);
    if FetchOutcome(good, retry, net, r) {
      OutcomeIsFetched(good, retry, net, 1, r);
    }
  }

  /** No try before number i was good, and no delay up to it was cut short. */
  ghost predicate AllBad(good: Response -> bool, retry: RetryConfig, net: Network, i: nat) {
    && (forall k {:trigger net.attempt(k)} | 1 <= k < i :: net.attempt(k).Answer? ==> !good(net.attempt(k).response))
    && (forall k {:trigger net.cancelled(k)} | 2 <= k <= i :: retry.delay > 0 ==> !net.cancelled(k))
  }

  lemma AllBadReached(good: Response -> bool, retry: RetryConfig, net: Network, i: nat)
    requires AllBad(good, retry, net, i)
    ensures Reached(good, retry, net, i)
  {
  }

  /** The first good answer is the result. */
  lemma GoodAnswerIsTaken(good: Response -> bool, retry: RetryConfig, net: Network, i: nat, r: Response)
    requires 1 <= i <= retry.count && net.attempt(i) == Answer(r) && good(r)
    requires forall k | 1 <= k < i :: net.attempt(k).Answer? ==> !good(net.attempt(k).response)
    requires forall k | 2 <= k <= i :: retry.delay > 0 ==> !net.cancelled(k)
    ensures Fetched(good, retry, net) == Ok(r)
  {
    AllBadReached(good, retry, net, i);
    FetchedIff(good, retry, net, Ok(r));
  }

  /** A cancel during a delay ends the fetching at once. */
  lemma CancelEndsFetching(good: Response -> bool, retry: RetryConfig, net: Network, i: nat)
    requires 2 <= i <= retry.count && retry.delay > 0 && net.cancelled(i)
    requires forall k | 1 <= k < i :: net.attempt(k).Answer? ==> !good(net.attempt(k).response)
    requires forall k | 2 <= k < i :: !net.cancelled(k)
    ensures Fetched(good, retry, net) == Err(ContextDone)
  {
    AllBadReached(good, retry, net, i - 1);
    assert Reached(good, retry, net, i - 1) && !Good(good, net.attempt(i - 1)) && Interrupted(retry, net, i);
    FetchedIff(good, retry, net, Err(ContextDone));
  }

  /** A bad answer to the last try is reported with its own status and body. */
  lemma LastAnswerIsReported(good: Response -> bool, retry: RetryConfig, net: Network, r: Response)
    requires retry.count >= 1 && net.attempt(retry.count) == Answer(r)
    requires forall k | 1 <= k <= retry.count :: net.attempt(k).Answer? ==> !good(net.attempt(k).response)
    requires forall k | 2 <= k <= retry.count :: retry.delay > 0 ==> !net.cancelled(k)
    ensures Fetched(good, retry, net) == Err(InvalidResponse(Invalid(ResponseError(r), r.status, r.body)))
  {
    AllBadReached(good, retry, net, retry.count);
    FetchedIff(good, retry, net, Err(InvalidResponse(Invalid(ResponseError(r), r.status, r.body))));
  }

  /** A last try without an answer, timed out or not, is reported with status 0 and no body. */
  lemma NoAnswerIsReported(good: Response -> bool, retry: RetryConfig, net: Network, timeout: bool)
    requires retry.count >= 1 && net.attempt(retry.count) == NoAnswer(timeout)
    requires forall k | 1 <= k <= retry.count :: net.attempt(k).Answer? ==> !good(net.attempt(k).response)
    requires forall k | 2 <= k <= retry.count :: retry.delay > 0 ==> !net.cancelled(k)
    ensures Fetched(good, retry, net) == Err(InvalidResponse(Invalid(TransportError(NoAnswer(timeout)), 0, [])))
  {
    AllBadReached(good, retry, net, retry.count);
    FetchedIff(good, retry, net, Err(InvalidResponse(Invalid(TransportError(NoAnswer(timeout)), 0, []))));
  }

  // ---- Process ----

  class ReturnObject {
    var statusCode: int
    var body: Text

    constructor (r: Response)
      ensures statusCode == r.status && body == r.body
    {
      statusCode, body := r.status, r.body;
    }
  }

  /** `Transport` stands for a *url.Error; see NoTransportError. */
  datatype ProcessError =
    | Transport(timeout: bool)
    | Cancelled
    | Rejected(invalid: Invalid)
    | StageFailed

  function FromFetch(e: FetchError): ProcessError {
    match e
    case ContextDone => Cancelled
    case InvalidResponse(invalid) => Rejected(invalid)
    case Raw(timeout) => Transport(timeout)
  }

  /** The part of the page that is watched. */
  function Extracted(w: Watch, libs: Libraries, body: Text): Option<Text> {
    if w.pattern != "" then libs.extract(w.pattern, body)
    else if w.extractBody then libs.extract("body", body)
    else Some(body)
  }

  function Transformed(w: Watch, libs: Libraries, body: Text): Option<Text> {
    if w.jq != "" then libs.jq(w.jq, body)
    else if w.parseRSS then libs.rss(body)
    else if w.html2text then libs.html2text(body)
    else Some(body)
  }

  /** The replacements apply one after the other, each to the result of the previous. */
  function Replaced(rs: seq<Replace>, libs: Libraries, body: Text): Text {
    if rs == [] then body
    else
      var last := rs[|rs| - 1];
      libs.replaceAll(last.re, Replaced(rs[..|rs| - 1], libs, body), last.replaceWith)
  }

  function Prepared(w: Watch, libs: Libraries, body: Text): Option<Text> {
    match Extracted(w, libs, body)
    case None => None
    case Some(b) =>
      match Transformed(w, libs, b)
      case None => None
      case Some(t) =>
        Some(NormalForm.Cleaned(w.removeEmptyLines, w.trimWhitespace, Replaced(w.replacements, libs, t)))
  }

  ghost function Processed(w: Watch, cfg: Configuration, libs: Libraries, net: Network): Result<Response, ProcessError>
    requires cfg.retry.count >= 1
  {
    match Fetched(Taken(w, cfg, libs), cfg.retry, net)
    case Err(e) => Err(FromFetch(e))
    case Ok(r) =>
      match Prepared(w, libs, r.body)
      case None => Err(StageFailed)
      case Some(body) => Ok(Response(r.status, body))
  }

  method Extract(w: Watch, libs: Libraries, ret: ReturnObject) returns (ok: bool)
    modifies ret
    ensures ret.statusCode == old(ret.statusCode)
    ensures ok == Extracted(w, libs, old(ret.body)).Some?
    ensures ok ==> Some(ret.body) == Extracted(w, libs, old(ret.body))
  {
    if w.pattern != "" || w.extractBody {
      var content := libs.extract(if w.pattern != "" then w.pattern else "body", ret.body);
      if content.None? {
        return false;
      }
      ret.body := content.value;
    }
    return true;
  }

  method Transform(w: Watch, libs: Libraries, ret: ReturnObject) returns (ok: bool)
    modifies ret
    ensures ret.statusCode == old(ret.statusCode)
    ensures ok == Transformed(w, libs, old(ret.body)).Some?
    ensures ok ==> Some(ret.body) == Transformed(w, libs, old(ret.body))
  {
    if w.jq != "" || w.parseRSS || w.html2text {
      var parsed := if w.jq != "" then libs.jq(w.jq, ret.body)
                    else if w.parseRSS then libs.rss(ret.body)
                    else libs.html2text(ret.body);
      if parsed.None? {
        return false;
      }
      ret.body := parsed.value;
    }
    return true;
  }

  method ApplyReplaces(w: Watch, libs: Libraries, ret: ReturnObject)
    modifies ret
    ensures ret.statusCode == old(ret.statusCode)
    ensures ret.body == Replaced(w.replacements, libs, old(ret.body))
  {
    for i := 0 to |w.replacements|
      invariant ret.body == Replaced(w.replacements[..i], libs, old(ret.body))
      invariant ret.statusCode == old(ret.statusCode)
    {
      assert w.replacements[..i + 1][..i] == w.replacements[..i];
      ret.body := libs.replaceAll(w.replacements[i].re, ret.body, w.replacements[i].replaceWith);
    }
    assert w.replacements[..|w.replacements|] == w.replacements;
  }

  method Clean(w: Watch, ret: ReturnObject)
    modifies ret
    ensures ret.statusCode == old(ret.statusCode)
    ensures ret.body == NormalForm.Cleaned(w.removeEmptyLines, w.trimWhitespace, old(ret.body))
  {
    if w.removeEmptyLines {
      ret.body := NormalForm.Cleaned(true, false, ret.body);
    }
    if w.trimWhitespace {
      ret.body := NormalForm.Cleaned(false, true, ret.body);
    }
  }

  /** The body of the object is rewritten stage by stage; false if a stage fails. */
  method Prepare(w: Watch, libs: Libraries, ret: ReturnObject) returns (ok: bool)
    modifies ret
    ensures ret.statusCode == old(ret.statusCode)
    ensures ok == Prepared(w, libs, old(ret.body)).Some?
    ensures ok ==> Some(ret.body) == Prepared(w, libs, old(ret.body))
  {
    ok := Extract(w, libs, ret);
    if ok {
      ok := Transform(w, libs, ret);
    }
    if ok {
      ApplyReplaces(w, libs, ret);
      Clean(w, ret);
    }
  }

  method Process(w: Watch, cfg: Configuration, libs: Libraries, net: Network)
    returns (ret: ReturnObject?, error: Option<ProcessError>)
    requires cfg.retry.count >= 1
    requires Aligned(cfg.compiledRetryOnMatch, cfg.retryOnMatch)
    requires Aligned(w.compiledRetryOnMatch, w.retryOnMatch)
    ensures match Processed(w, cfg, libs, net)
            case Ok(r) =>
              error.None? && ret != null && fresh(ret) && ret.statusCode == r.status && ret.body == r.body
            case Err(e) => ret == null && error == Some(e)
  {
    var fetched := CheckWithRetries(w, cfg, libs, net);
    if fetched.Err? {
      return null, Some(FromFetch(fetched.error));
    }
    var obj := new ReturnObject(fetched.value);
    var ok := Prepare(w, libs, obj);
    if !ok {
      return null, Some(StageFailed);
    }
    return obj, None;
  }

  lemma NeverRaw(good: Response -> bool, retry: RetryConfig, net: Network, e: FetchError)
    requires FetchOutcome(good, retry, net, Err(e))
    ensures !e.Raw?
  {
  }

  /**
    Process never hands a transport error through, so the caller's silent branch for
    time-outs is never taken: only the unreachable end of the retry loop would.
   */
  lemma NoTransportError(w: Watch, cfg: Configuration, libs: Libraries, net: Network)
    requires cfg.retry.count >= 1
    ensures Processed(w, cfg, libs, net).Err? ==> !Processed(w, cfg, libs, net).error.Transport?
  {
    var good := Taken(w, cfg, libs);
    var fetched := Fetched(good, cfg.retry, net);
    FetchedIff(good, cfg.retry, net, fetched);
    if fetched.Err? {
      NeverRaw(good, cfg.retry, net, fetched.error);
    }
  }
}
