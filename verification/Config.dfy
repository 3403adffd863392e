/** The configuration and the checks that internal/config makes before accepting it. */
module Config {
  import opened Basics

  /** A compiled regular expression; what it matches is left to the regexp package. */
  datatype Regexp = Regexp(source: string)

  datatype ReplaceConfig = ReplaceConfig(pattern: string, replaceWith: Text)

  datatype WebhookConfig = WebhookConfig(url: string, header: map<string, string>, verb: string, useragent: string)

  datatype WatchConfig = WatchConfig(
    cron: string,
    name: string,
    description: string,
    url: string,
    verb: string,
    body: string,
    header: map<string, string>,
    additionalTo: seq<string>,
    noErrorMailOnStatusCode: seq<int>,
    disabled: bool,
    pattern: string,
    replacements: seq<ReplaceConfig>,
    retryOnMatch: seq<string>,
    skipSofterrorPatterns: bool,
    jq: string,
    extractBody: bool,
    html2text: bool,
    useragent: string,
    removeEmptyLines: bool,
    trimWhitespace: bool,
    parseRSS: bool,
    webhooks: seq<WebhookConfig>,
    insecureSkipVerify: bool)

  /** `delay` in nanoseconds. */
  datatype RetryConfig = RetryConfig(count: int, delay: int)

  datatype MailConfig = MailConfig(to: seq<string>, retries: int)

  datatype Configuration = Configuration(
    mail: MailConfig,
    retry: RetryConfig,
    noErrorMailOnStatusCode: seq<int>,
    retryOnMatch: seq<string>,
    compiledRetryOnMatch: seq<Regexp>,
    watches: seq<WatchConfig>)

  /** What identifies a watch in the database. */
  datatype Key = Key(name: string, url: string)

  function KeyOf(wc: WatchConfig): Key {
    Key(wc.name, wc.url)
  }

  /** Answers of the libraries and of the machine that GetConfig asks. */
  datatype Checks = Checks(
    otherwiseValid: Configuration -> bool,
    gitInstalled: bool,
    compiles: string -> bool,
    jqParses: string -> bool)

  datatype ConfigError =
    | ValidationFailed
    | NoGit
    | DuplicateWatch(name: string)
    | ConflictingOptions
    | BadPattern(pattern: string)
    | BadJq(jq: string)

  // ---- defaults and validation tags ----

  function WithDefaults(wc: WatchConfig): WatchConfig {
    wc.(verb := if wc.verb == "" then "GET" else wc.verb,
        cron := if wc.cron == "" then "@hourly" else wc.cron)
  }

  predicate ValidCodes(codes: seq<int>) {
    forall c | c in codes :: 100 <= c <= 999
  }

  /** The validation tags that the rest of the program relies on. */
  predicate TagsHold(c: Configuration) {
    && c.retry.count >= 1
    && c.mail.retries != 0
    && ValidCodes(c.noErrorMailOnStatusCode)
    && forall wc | wc in c.watches :: ValidCodes(wc.noErrorMailOnStatusCode)
  }

  // ---- uniqueness ----

  /** GetConfig compares the name directly followed by the URL. */
  function Joined(wc: WatchConfig): string {
    wc.name + wc.url
  }

  ghost predicate JoinedDistinct(ws: seq<WatchConfig>) {
    forall i, j | 0 <= i < j < |ws| :: Joined(ws[i]) != Joined(ws[j])
  }

  ghost predicate KeysDistinct(ws: seq<WatchConfig>) {
    forall i, j | 0 <= i < j < |ws| :: KeyOf(ws[i]) != KeyOf(ws[j])
  }

  method CheckUnique(ws: seq<WatchConfig>) returns (duplicate: Option<string>)
    ensures duplicate.None? <==> JoinedDistinct(ws)
    ensures duplicate.Some? ==>
              exists i, j | 0 <= i < j < |ws| ::
                Joined(ws[i]) == Joined(ws[j]) && ws[j].name == duplicate.value && JoinedDistinct(ws[..j])
  {
    var tmpArray: seq<string> := [];
    var n := 0;
    while n < |ws|
      invariant 0 <= n <= |ws|
      invariant |tmpArray| == n && forall k | 0 <= k < n :: tmpArray[k] == Joined(ws[k])
      invariant JoinedDistinct(ws[..n])
    {
      var key := Joined(ws[n]);
      if key in tmpArray {
        var i :| 0 <= i < |tmpArray| && tmpArray[i] == key;
        assert Joined(ws[i]) == Joined(ws[n]);
        return Some(ws[n].name);
      }
      tmpArray := tmpArray + [key];
      n := n + 1;
    }
    assert ws[..n] == ws;
    return None;
  }

  /** Distinct joined texts mean distinct (name, url) pairs. */
  lemma AcceptedKeysDistinct(ws: seq<WatchConfig>)
    requires JoinedDistinct(ws)
    ensures KeysDistinct(ws)
  {
    forall i, j | 0 <= i < j < |ws| ensures KeyOf(ws[i]) != KeyOf(ws[j]) {
      assert Joined(ws[i]) != Joined(ws[j]);
    }
  }

  /** b has the first n runes of a's URL at the end of its name instead. */
  ghost predicate Shifted(a: WatchConfig, b: WatchConfig) {
    exists n | 0 < n <= |a.url| :: b.name == a.name + a.url[..n] && b.url == a.url[n..]
  }

  ghost predicate SomeShifted(ws: seq<WatchConfig>) {
    exists i, j | 0 <= i < |ws| && 0 <= j < |ws| && i != j :: Shifted(ws[i], ws[j])
  }

  lemma SameJoined(ws: seq<WatchConfig>, i: nat, j: nat)
    requires i < |ws| && j < |ws| && i != j && Joined(ws[i]) == Joined(ws[j])
    ensures !JoinedDistinct(ws)
  {
    var a, b := if i < j then i else j, if i < j then j else i;
    assert Joined(ws[a]) == Joined(ws[b]);
  }

  lemma ShiftedJoins(a: WatchConfig, b: WatchConfig)
    ensures Shifted(a, b) ==> Joined(a) == Joined(b)
  {
    if Shifted(a, b) {
      var n :| 0 < n <= |a.url| && b.name == a.name + a.url[..n] && b.url == a.url[n..];
      assert Joined(b) == a.name + (a.url[..n] + a.url[n..]);
      assert a.url[..n] + a.url[n..] == a.url;
    }
  }

  lemma JoinedShifts(a: WatchConfig, b: WatchConfig)
    requires Joined(a) == Joined(b) && KeyOf(a) != KeyOf(b) && |a.name| <= |b.name|
    ensures Shifted(a, b)
  {
    var n := |b.name| - |a.name|;
    assert a.name == Joined(a)[..|a.name|] && b.name == Joined(b)[..|b.name|];
    assert a.url == Joined(a)[|a.name|..] && b.url == Joined(b)[|b.name|..];
    assert b.name == a.name + a.url[..n];
    assert b.url == a.url[n..];
    assert n > 0;
  }

  /**
    The check is stricter than the pairs it protects: it also rejects configurations
    whose pairs are all different, exactly those in which one watch is another with
    the start of its URL moved to the end of its name.
   */
  lemma DistinctKeysRejectedIff(ws: seq<WatchConfig>)
    requires KeysDistinct(ws)
    ensures !JoinedDistinct(ws) <==> SomeShifted(ws)
  {
    if i, j :| 0 <= i < |ws| && 0 <= j < |ws| && i != j && Shifted(ws[i], ws[j]) {
      ShiftedJoins(ws[i], ws[j]);
      SameJoined(ws, i, j);
    }
    if i, j :| 0 <= i < j < |ws| && Joined(ws[i]) == Joined(ws[j]) {
      assert KeyOf(ws[i]) != KeyOf(ws[j]);
      if |ws[i].name| <= |ws[j].name| {
        JoinedShifts(ws[i], ws[j]);
        assert Shifted(ws[i], ws[j]);
      } else {
        JoinedShifts(ws[j], ws[i]);
        assert Shifted(ws[j], ws[i]);
      }
    }
  }

  lemma ShiftedRejected(wc: WatchConfig, name: string, start: string, rest: string)
    requires start != []
    ensures var a, b := wc.(name := name, url := start + rest), wc.(name := name + start, url := rest);
            KeysDistinct([a, b]) && !JoinedDistinct([a, b])
  {
    var a, b := wc.(name := name, url := start + rest), wc.(name := name + start, url := rest);
    assert a.url[..|start|] == start && a.url[|start|..] == rest;
    assert Shifted(a, b);
    ShiftedJoins(a, b);
    var ws := [a, b];
    assert |ws[0].name| < |ws[1].name|;
    SameJoined(ws, 0, 1);
  }

  /** Two watches with different pairs, and URLs that are valid, that are not accepted together. */
  lemma DistinctKeysRejected(wc: WatchConfig)
    ensures var a := wc.(name := "news", url := "view-source:" + "http://a.example/");
            var b := wc.(name := "news" + "view-source:", url := "http://a.example/");
            KeysDistinct([a, b]) && !JoinedDistinct([a, b])
  {
    ShiftedRejected(wc, "news", "view-source:", "http://a.example/");
  }

  // ---- the per-watch checks ----

  predicate OptionsConflict(wc: WatchConfig) {
    || (wc.extractBody && wc.pattern != "")
    || (wc.parseRSS && wc.jq != "")
    || (wc.parseRSS && wc.html2text)
    || (wc.jq != "" && wc.html2text)
    || (wc.jq != "" && wc.extractBody)
  }

  predicate PatternsCompile(ps: seq<string>, compiles: string -> bool) {
    forall p | p in ps :: compiles(p)
  }

  predicate ReplacesCompile(rs: seq<ReplaceConfig>, compiles: string -> bool) {
    forall r | r in rs :: compiles(r.pattern)
  }

  predicate WatchAccepted(wc: WatchConfig, checks: Checks) {
    && !OptionsConflict(wc)
    && (wc.jq != "" ==> checks.jqParses(wc.jq))
    && ReplacesCompile(wc.replacements, checks.compiles)
    && PatternsCompile(wc.retryOnMatch, checks.compiles)
  }

  method CheckPatterns(ps: seq<string>, compiles: string -> bool) returns (bad: Option<string>)
    ensures bad.None? <==> PatternsCompile(ps, compiles)
    ensures bad.Some? ==> bad.value in ps && !compiles(bad.value)
  {
    for i := 0 to |ps|
      invariant PatternsCompile(ps[..i], compiles)
    {
      if !compiles(ps[i]) {
        return Some(ps[i]);
      }
    }
    assert ps[..|ps|] == ps;
    return None;
  }

  /** What the reported error says about the watch. */
  predicate WatchErrorHolds(e: ConfigError, wc: WatchConfig, checks: Checks) {
    match e
    case ConflictingOptions => OptionsConflict(wc)
    case BadJq(jq) => !OptionsConflict(wc) && jq == wc.jq != "" && !checks.jqParses(jq)
    case BadPattern(p) =>
      && !OptionsConflict(wc) && !checks.compiles(p)
      && ((exists r | r in wc.replacements :: r.pattern == p) || p in wc.retryOnMatch)
    case _ => false
  }

  method CheckWatch(wc: WatchConfig, checks: Checks) returns (error: Option<ConfigError>)
    ensures error.None? <==> WatchAccepted(wc, checks)
    ensures error.Some? ==> WatchErrorHolds(error.value, wc, checks)
    ensures error == Some(ConflictingOptions) <==>
              || (wc.extractBody && (wc.pattern != "" || wc.jq != ""))
              || (wc.jq != "" && (wc.parseRSS || wc.html2text))
              || (wc.parseRSS && wc.html2text)
    ensures error.None? ==>
              && (wc.jq != "" ==> checks.jqParses(wc.jq))
              && (forall r | r in wc.replacements :: checks.compiles(r.pattern))
              && (forall p | p in wc.retryOnMatch :: checks.compiles(p))
  {
    if OptionsConflict(wc) {
      return Some(ConflictingOptions);
    }
    if wc.jq != "" && !checks.jqParses(wc.jq) {
      return Some(BadJq(wc.jq));
    }
    for i := 0 to |wc.replacements|
      invariant ReplacesCompile(wc.replacements[..i], checks.compiles)
    {
      if !checks.compiles(wc.replacements[i].pattern) {
        assert wc.replacements[i] in wc.replacements;
        return Some(BadPattern(wc.replacements[i].pattern));
      }
    }
    assert wc.replacements[..|wc.replacements|] == wc.replacements;
    var bad := CheckPatterns(wc.retryOnMatch, checks.compiles);
    return if bad.Some? then Some(BadPattern(bad.value)) else None;
  }

  // ---- GetConfig ----

  /** Compiled list `rs` belongs to pattern list `ps`, index by index. */
  ghost predicate Aligned(rs: seq<Regexp>, ps: seq<string>) {
    |rs| == |ps| && forall i | 0 <= i < |ps| :: rs[i] == Regexp(ps[i])
  }

  ghost predicate Accepted(c: Configuration, checks: Checks) {
    && TagsHold(c)
    && checks.otherwiseValid(c)
    && checks.gitInstalled
    && JoinedDistinct(c.watches)
    && (forall wc | wc in c.watches :: WatchAccepted(wc, checks))
    && PatternsCompile(c.retryOnMatch, checks.compiles)
  }

  /** The checks run in a fixed order, and the error names one that failed after all before it held. */
  ghost predicate ErrorHolds(e: ConfigError, c: Configuration, checks: Checks) {
    var valid := TagsHold(c) && checks.otherwiseValid(c);
    match e
    case ValidationFailed => !valid
    case NoGit => valid && !checks.gitInstalled
    case DuplicateWatch(name) =>
      && valid && checks.gitInstalled
      && exists i, j | 0 <= i < j < |c.watches| ::
           Joined(c.watches[i]) == Joined(c.watches[j]) && c.watches[j].name == name && JoinedDistinct(c.watches[..j])
    case _ =>
      && valid && checks.gitInstalled && JoinedDistinct(c.watches)
      && ((exists wc | wc in c.watches :: WatchErrorHolds(e, wc, checks))
          || ((forall wc | wc in c.watches :: WatchAccepted(wc, checks))
              && e.BadPattern? && e.pattern in c.retryOnMatch && !checks.compiles(e.pattern)))
  }

  /** At most one of jq, parse_rss and html2text; a pattern or jq excludes extract_body; everything parses. */
  ghost predicate WatchUsable(wc: WatchConfig, checks: Checks) {
    && !(wc.extractBody && (wc.pattern != "" || wc.jq != ""))
    && !(wc.jq != "" && (wc.parseRSS || wc.html2text)) && !(wc.parseRSS && wc.html2text)
    && (wc.jq != "" ==> checks.jqParses(wc.jq))
    && (forall r | r in wc.replacements :: checks.compiles(r.pattern))
    && (forall p | p in wc.retryOnMatch :: checks.compiles(p))
  }

  /** What an accepted configuration is, without any of the names above. */
  lemma AcceptedIff(c: Configuration, checks: Checks)
    ensures Accepted(c, checks) <==>
              && c.retry.count >= 1 && c.mail.retries != 0 && checks.otherwiseValid(c) && checks.gitInstalled
              && (forall x | x in c.noErrorMailOnStatusCode :: 100 <= x <= 999)
              && (forall wc, x | wc in c.watches && x in wc.noErrorMailOnStatusCode :: 100 <= x <= 999)
              && (forall i, j | 0 <= i < j < |c.watches| ::
                    c.watches[i].name + c.watches[i].url != c.watches[j].name + c.watches[j].url)
              && (forall wc | wc in c.watches :: WatchUsable(wc, checks))
              && (forall p | p in c.retryOnMatch :: checks.compiles(p))
  {
    forall wc ensures WatchAccepted(wc, checks) <==> WatchUsable(wc, checks) {
    }
  }

  function AllWithDefaults(ws: seq<WatchConfig>): seq<WatchConfig> {
    seq(|ws|, i requires 0 <= i < |ws| => WithDefaults(ws[i]))
  }

  function Defaulted(c: Configuration): Configuration {
    c.(watches := AllWithDefaults(c.watches))
  }

  method SetWatchDefaults(wc: WatchConfig) returns (r: WatchConfig)
    ensures r == WithDefaults(wc)
  {
    r := wc;
    if r.verb == "" {
      r := r.(verb := "GET");
    }
    if r.cron == "" {
      r := r.(cron := "@hourly");
    }
  }

  /** Defaults are set watch by watch, in place. */
  method SetDefaults(c: Configuration) returns (r: Configuration)
    ensures r == Defaulted(c)
  {
    var watches := c.watches;
    for i := 0 to |watches|
      invariant |watches| == |c.watches|
      invariant forall k | 0 <= k < i :: watches[k] == WithDefaults(c.watches[k])
      invariant forall k | i <= k < |watches| :: watches[k] == c.watches[k]
    {
      var wc := SetWatchDefaults(watches[i]);
      watches := watches[i := wc];
    }
    assert watches == AllWithDefaults(c.watches);
    r := c.(watches := watches);
  }

  /**
    From the unmarshalled file to the configuration the program runs with. The
    compiled list is not read from the file.
   */
  method GetConfig(loaded: Configuration, checks: Checks) returns (r: Result<Configuration, ConfigError>)
    requires loaded.compiledRetryOnMatch == []
    ensures r.Ok? <==> Accepted(Defaulted(loaded), checks)
    ensures r.Err? ==> ErrorHolds(r.error, Defaulted(loaded), checks)
    ensures r.Ok? ==>
              && r.value == Defaulted(loaded).(compiledRetryOnMatch := r.value.compiledRetryOnMatch)
              && Aligned(r.value.compiledRetryOnMatch, r.value.retryOnMatch)
              && KeysDistinct(r.value.watches)
    ensures r.Ok? ==>
              && r.value == loaded.(watches := r.value.watches, compiledRetryOnMatch := r.value.compiledRetryOnMatch)
              && |r.value.watches| == |loaded.watches|
              && forall i | 0 <= i < |loaded.watches| ::
                   var wc := loaded.watches[i];
                   r.value.watches[i] == wc.(verb := if wc.verb == "" then "GET" else wc.verb,
                                             cron := if wc.cron == "" then "@hourly" else wc.cron)
  {
    var config := SetDefaults(loaded);
    if !TagsHold(config) || !checks.otherwiseValid(config) {
      return Err(ValidationFailed);
    }
    if !checks.gitInstalled {
      return Err(NoGit);
    }
    var duplicate := CheckUnique(config.watches);
    if duplicate.Some? {
      return Err(DuplicateWatch(duplicate.value));
    }
    for i := 0 to |config.watches|
      invariant forall k | 0 <= k < i :: WatchAccepted(config.watches[k], checks)
    {
      var error := CheckWatch(config.watches[i], checks);
      if error.Some? {
        assert config.watches[i] in config.watches;
        return Err(error.value);
      }
    }
    AcceptedKeysDistinct(config.watches);
    for i := 0 to |config.retryOnMatch|
      invariant config == Defaulted(loaded).(compiledRetryOnMatch := config.compiledRetryOnMatch)
      invariant Aligned(config.compiledRetryOnMatch, config.retryOnMatch[..i])
      invariant PatternsCompile(config.retryOnMatch[..i], checks.compiles)
    {
      var p := config.retryOnMatch[i];
      if !checks.compiles(p) {
        return Err(BadPattern(p));
      }
      config := config.(compiledRetryOnMatch := config.compiledRetryOnMatch + [Regexp(p)]);
    }
    assert config.retryOnMatch[..|config.retryOnMatch|] == config.retryOnMatch;
    return Ok(config);
  }
}
