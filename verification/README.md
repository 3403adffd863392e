# websitewatcher, modelled and proved in Dafny

websitewatcher polls web pages, normalises each body, compares it with the body
stored in SQLite, mails the difference, calls webhooks and then stores the new
body. This project models that behaviour and proves what it promises: no change
is lost, nobody is left out of a notification that leads to a stored change, and
jobs that share one table do not disturb each other. `dafny verify dfyconfig.toml`
checks everything.

## The parts

| file | models |
|---|---|
| `Regex.dfy`, `Whitespace.dfy`, `Normaliser.dfy`, `EmptyLines.dfy`, `NormalForm.dfy` | the two cleanup expressions, run by a small matching engine with Go's rules (leftmost start, first preferred way, greedy repetition, multi-line anchors judged on the whole text), and what they do to a text |
| `Config.dfy` | defaults, validation, uniqueness and compiled pattern lists |
| `Watch.dfy`, `Stages.dfy` | building a watch, the retry loop, the retry test and `Process` with its stages |
| `Diff.dfy` | printed hunks and parsing git's output |
| `Markup.dfy`, `Outputs.dfy`, `Html.dfy` | the three renderings of a diff (text mail, HTML table, webhook payload) and the escaped HTML report, read back as a browser reads them |
| `Mail.dfy` | one mail with its retries |
| `Database.dfy` | the `watches` table with its unique index, its statements and the start-up reconciliation |
| `Protocol.dfy` | one job as a state machine: every call to network, database, git, SMTP server and webhook is one step whose answer is arbitrary |
| `Steps.dfy` | what each kind of step does, for the proofs that follow a run |
| `Runs.dfy` | what holds over every history of that machine |
| `Completion.dfy`, `Successes.dfy` | one run from start to end: when exactly the new content is stored, and the log it leaves |
| `Reports.dfy`, `Alarms.dfy` | who gets the report about an invalid response or a time-out, and who gets the mail about an error |
| `Shared.dfy` | all jobs at once over one table, in any interleaving of their steps |
| `Restarts.dfy` | histories across restarts of the program |
| `App.dfy`, `Startup.dfy` | `processWatch` and `run` as imperative code on the database object, proved against the state machine |

A run's log consists of events: a diff was computed (`Compared`), a mail was
accepted (`Delivered`), a webhook was called (`HookCalled`), a row was inserted
or updated (`Inserted`, `Committed`), an error was logged (`Failed`). `Runs.LogIsBacked`
ties each entry of the log to the one step that wrote it, to what that step was to do
and for whom, and to that step's own answer; no two entries other than `Failed` share
a step (`Runs.OneEntryEach`). What `Process` returns is arbitrary
in the state machine; `App.App.RunJob` takes it from the modelled `Process`. The only assumptions about the
environment are that a job never overlaps itself (internal/taskmanager/taskmanager.go:19)
and that a failing SQL statement changes nothing.

## What the proofs show about the code

- The branch that ignores time-outs (main.go:265-271) is dead. Only the code after the
  retry loop could return a bare `*url.Error`, and it is never reached
  (`Watch.CheckWithRetries`, `Watch.NoTransportError`): a time-out on the last try is
  flattened into an `InvalidResponseError` with status 0
  (internal/watch/watch.go:228-230), which no accepted list of ignored status codes
  contains. The branch's comment says no mail is sent; the code mails the report to
  everybody whose letter, and each letter before it, is accepted
  (`Reports.TimeoutReportedIff`).
- A failure of any step is mailed to `mail.to`, with these exact conditions: no dry run,
  a mailer, and accepted letters up to the recipient (`Alarms.ErrorMailIff`). Where the
  code only logs, as when a mailer cannot be made, nobody hears of the failure.
- A dry run mails nobody but still stores the new content, so the next ordinary
  run does not report the change (`Runs.DryRunIsSilent`, `Completion.CommitsIff`).
- The trim flag without the empty-line flag joins paragraphs: `a`, empty line, `b`
  becomes `ab`. Lines survive exactly when no blank run is removed altogether
  (`NormalForm.TrimAloneGluesParagraphs`, `NormalForm.TrimAloneKeepsLinesIff`).
- The diff loses a removed line whose text starts with `--`, an added line whose
  text starts with `++`, and a carriage return at the end of a line; nothing else
  (`Diff.ParseRecoversIff`; `Diff.DashedLineLost` is a case).
- The uniqueness check compares the name directly followed by the URL. It rejects
  some watches that the table could hold side by side: exactly those where the
  start of one URL has moved to the end of the other name
  (`Config.DistinctKeysRejectedIff`; `Config.DistinctKeysRejected` is a case).
- The documentation (README.md:27-28) says that errors go to `mail.to` only. Error
  mails do (`Runs.ErrorMailsGoToMailTo`), but the report about an invalid response
  also goes to the additional recipients of the watch: `Reports.AdditionalRecipientReported`
  is a run that does so, and `Reports.AdditionalRecipientReportedIff` says exactly when.

## Model

| member | source | states |
|---|---|---|
| Regex.ReplaceFromIsScan | internal/watch/watch.go:413-421 | for an expression that never matches the empty text, the loop of `ReplaceAll` (search the leftmost match, copy, replace, go on) equals one left-to-right pass |
| Whitespace.BlankRunes | internal/watch/watch.go:25-26 | which runes count as space and as blank, by code point |
| Whitespace.EmptyLinePass | internal/watch/watch.go:25 | with leftmost-first greedy matching, replacing the empty-line expression is: after a newline, skip the `\s` run up to and including its last newline |
| Whitespace.TrimMatches | internal/watch/watch.go:26 | where each match of the trim expression ends, for every position of every text, with `^` and `$` judged on the whole text |
| EmptyLines.EmptyLinesByRuns | internal/watch/watch.go:414-416 | the empty-line pass alone keeps of each `\s` run what stands before its first and after its last newline, with one newline between, and keeps all other text |
| EmptyLines.EmptyLinesGone | internal/watch/watch.go:414-416 | its result has no newline, blank run, newline left, and a second pass changes nothing |
| EmptyLines.EmptyLinesKeepContent | internal/watch/watch.go:414-416 | it keeps every rune outside `\s` in order and never lengthens the text |
| Normaliser.TrimByRuns | internal/watch/watch.go:419-421 | the trim pass alone drops the leading and trailing blank runs, keeps a run without a newline, and turns a run with one into a newline, or into nothing exactly when its last newline follows another newline |
| Normaliser.RunsAreLines | internal/watch/watch.go:413-421 | collapsing runs is the same as splitting at newlines, trimming, dropping empty lines and joining |
| NormalForm.CleanedIsContentLines | internal/watch/watch.go:413-421 | with both flags, for every text, the result is the trimmed non-empty lines in order, joined by newlines |
| NormalForm.CleanedEqualIff | main.go:327 | with both flags, two bodies compare as equal if and only if their trimmed non-empty lines are equal |
| NormalForm.CleanedTwice | internal/watch/watch.go:413-421 | cleaning a cleaned body changes nothing |
| NormalForm.TrimAloneKeepsLinesIff | internal/watch/watch.go:419-421 | the trim flag alone gives the same lines if and only if no blank run is removed altogether |
| NormalForm.TrimAloneGluesParagraphs | internal/watch/watch.go:26 | the trim flag alone turns two paragraphs into one word, for any two runes |
| NormalForm.TrimTwice | internal/watch/watch.go:419-421 | the trim flag alone is idempotent |
| NormalForm.TrimKeepsContent | internal/watch/watch.go:419-421 | the trim flag alone keeps the sequence of non-blank runes |
| Config.CheckUnique | internal/config/config.go:173-181 | no duplicate is reported if and only if all joined texts differ; the reported name is that of the first watch that repeats one |
| Config.AcceptedKeysDistinct | internal/config/config.go:173-181 | distinct joined texts mean distinct (name, url) pairs |
| Config.DistinctKeysRejectedIff | internal/config/config.go:173-181 | a configuration whose pairs are all different is rejected if and only if some watch is another one with the start of its URL moved to the end of its name |
| Config.DistinctKeysRejected | internal/config/config.go:176-178 | two watches with non-empty names, valid URLs and different pairs that are rejected |
| Config.CheckWatch | internal/config/config.go:183-214 | an error if and only if options conflict (two of jq, parse_rss and html2text, or extract_body with a pattern or jq), the jq filter does not parse or a pattern does not compile; the error names what is wrong |
| Config.GetConfig | internal/config/config.go:142-225 | success if and only if every check holds after the defaults are set; otherwise the first failing kind of check is reported; an accepted configuration is the loaded one with the method GET and hourly checks where none are given, has distinct keys and a compiled list that is aligned with the global patterns |
| Config.AcceptedIff | internal/config/config.go:142-225 | what an accepted configuration is, check by check |
| Watch.New | internal/watch/watch.go:84-134 | every field is the configured one, the method is GET when none is given, and both compiled lists belong to their patterns index by index |
| Watch.ShouldRetry | internal/watch/watch.go:136-184 | yes if and only if the status is not 200, or the body is non-empty and contains a known error text (unless skipped) or matches a global or watch pattern; every index is in bounds and the cause is the first that applies |
| Watch.TakenIff | internal/watch/watch.go:136-184 | an answer is taken if and only if its status is 200 and its body is empty, or holds none of the known error texts, unless skipped, and matches no pattern |
| Watch.CheckWithRetries | internal/watch/watch.go:189-268 | the loop with its early returns computes `Fetched`; the code after the loop is unreachable |
| Watch.FetchedIff | internal/watch/watch.go:189-268 | `Fetched` is the first good answer, or after exactly `count` tries an error about the last try only, or the context's error in a delay; the network's answers determine which |
| Watch.GoodAnswerIsTaken | internal/watch/watch.go:251-252 | the first good answer is returned, whatever would come later |
| Watch.CancelEndsFetching | internal/watch/watch.go:198-203 | a cancel during a delay ends the fetching at once |
| Watch.LastAnswerIsReported | internal/watch/watch.go:235-249 | a bad answer to the last try becomes an invalid-response error with its own status and body |
| Watch.NoAnswerIsReported | internal/watch/watch.go:228-230 | a last try without an answer, timed out or not, becomes an invalid-response error with status 0 and no body |
| Watch.Process | internal/watch/watch.go:315-426 | extraction, transformation, replacements one after the other and cleanup apply to the fetched body in this order; the first failing stage ends it |
| Stages.ProcessedIs | internal/watch/watch.go:324-423 | for every choice of options the result is the part of the page, transformed, with every replacement applied to the result of the one before, then the empty-line pass, then the trim pass |
| Stages.StageFails | internal/watch/watch.go:326-403 | only taking the part and transforming it can fail, and then Process fails |
| Stages.PartAlone | internal/watch/watch.go:325-339 | without options the body is returned as it came; a pattern or extract_body alone returns the extracted part |
| Stages.TransformationAlone | internal/watch/watch.go:345-402 | jq, parse_rss or html2text alone returns what its library makes of the body |
| Stages.ReplacementAlone | internal/watch/watch.go:405-409 | a single replacement alone |
| Stages.CleanupAlone | internal/watch/watch.go:413-421 | a single cleanup flag alone |
| Stages.OptionsTogether | internal/watch/watch.go:324-423 | a pattern, html2text, two replacements and both flags compose in the order of the code |
| Watch.NoTransportError | main.go:265-271 | the bare transport error that the code after the retry loop would return never comes out of Process |
| Mail.Send | internal/mail/mail.go:153-189 | the retry loop gives the outcome that the server's answers determine |
| Mail.SendOutcomeIff | internal/mail/mail.go:176-188 | success is exactly one accepted try after refused ones, within `retries`; a cancel stops at once; giving up takes exactly `retries` refused tries; without content or usable address nothing is tried |
| Mail.TryDecides | internal/mail/mail.go:176-188 | after refused tries the next answer decides: accepted, cancelled, or given up if it was the last |
| Html.EscapeRoundTrip | internal/mail/mail.go:91-116 | undoing the five entities gives back every text |
| Html.EscapedHasNoTag | internal/mail/mail.go:199-203 | escaped text has no angle bracket and no quote, so only the wrapper and the line breaks are markup |
| Html.WatchErrorMail | internal/mail/mail.go:88-125 | a browser shows the whole report, caption by caption and line by line, and nothing else, for every input |
| Diff.GenerateDiff | internal/diff/diff.go:87-138 | the scanning loop keeps exactly the classified lines of the input, in order, and fails only for a long input that is one unfinished line |
| Diff.ParsedIff | internal/diff/diff.go:88-92 | it fails if and only if the input has at least 4096 runes and no newline |
| Diff.ParsePrinted | internal/diff/diff.go:87-138 | what the parser makes of any printed hunks: header lines vanish, each edit stays with its mode unless it looks like a header line |
| Diff.ParseRecoversIff | internal/diff/diff.go:99-131 | the parser gives back all hunk lines with their modes if and only if no removed line starts with `--`, no added line starts with `++` and no line ends in a carriage return |
| Diff.SidesRecovered | internal/diff/diff.go:99-131 | then unchanged plus removed lines are the old side of the hunks, and unchanged plus added lines the new side |
| Diff.DashedLineLost | internal/diff/diff.go:99-131 | a hunk with a removed line `-- x`, which the parser loses |
| Outputs.TableShowsLines | internal/diff/diff_templ.go:67-166 | reading the rendered rows as a browser does (tags with quoted attributes, the class and the text of each row's last cell) gives every line once, in order and with its mode, whatever the lines contain, and the table shows nothing else |
| Outputs.CellShows | internal/diff/diff_templ.go:123-160 | a cell shows the content, with the leading space of an unchanged line as a non-breaking space between two spaces |
| Outputs.PayloadShowsLines | internal/webhook/webhook.go:43-61 | POST, PUT and PATCH, and no other method, carry every line with its mode by name |
| Outputs.OutputsAgree | internal/webhook/webhook.go:56-61 | for every diff GenerateDiff can return, text mail, HTML table and webhook payload show the same lines once each in the same order; table and payload agree on each mode |
| Database.InsertEffect | internal/database/sqlc/queries.sql.go:83-106 | inserting for a key without a row keeps the table valid, adds that row and changes no other |
| Database.UpdateEffect | internal/database/sqlc/queries.sql.go:108-132 | updating by id keeps the table valid and changes the content of that row only |
| Database.Database.GetLastContent | internal/database/database.go:149-161 | fails if and only if the statement does; otherwise a row of the table with this pair, or not found, and then the table has no such row |
| Database.Database.InsertWatch | internal/database/database.go:163-173 | succeeds if and only if the statement does not fail and the unique index has no row for the pair; then exactly one row with a fresh id is added |
| Database.Database.UpdateLastContent | internal/database/database.go:175-184 | succeeds if and only if the statement does not fail and the id exists; then that row has the new content |
| Database.Database.PrepareDatabase | internal/database/database.go:187-228 | without a fault: exactly the configured rows stay, untouched, the configured watches without a row are returned in order, and rows before = rows after + deleted; it fails if and only if a statement it makes fails, having deleted unconfigured rows only |
| Database.PrepareTwice | internal/database/database.go:187-228 | a second reconciliation deletes nothing and returns the same new watches |
| Database.WatchesCounted | internal/database/database.go:192-206 | with distinct keys, watches = new watches + rows kept |
| Database.KeptSelect | internal/database/database.go:214-225 | after reconciliation a configured pair has the row it had, disabled or not, and no other pair has one |
| Database.HalfKeptSelect | internal/database/database.go:219-222 | a purge that fails part-way leaves a valid table and every configured row as it was |
| Runs.RunKeepsInv | main.go:262-397 | at every step of every history the log of the current run is exactly the one its position implies, recipients and webhooks in order, and the content it relies on is still there |
| Runs.CommitAnnounced | main.go:327-381 | outside dry-run mode a stored content is replaced by a different one only if, earlier in that same run, everybody in `Mail.To` followed by `AdditionalTo` was mailed the diff of exactly these two contents, and then each webhook was called once in order |
| Runs.CommitTold | main.go:327-381 | the same entry by entry: recipient i of `Mail.To` at position 1 + i, the additional recipients after them in order, then each webhook |
| Runs.CommitsAnnounced | main.go:327-381 | over whole histories outside dry-run mode, every commit of a changed content in the log comes directly after the complete announcement of exactly this change |
| Runs.FirstRunTellsNoChange | README.md:20-22 | a run that began without a row mails no diff, calls no webhook and compares nothing, wherever it stands |
| Runs.LogIsBacked | main.go:262-397 | every entry of the log was written by one step, at the position whose task it names (this recipient and notice, this webhook, this write, this pair of contents), and that step's own answer was the one it stands for: an accepted letter, a write that did not fail, the diff git returned |
| Runs.OneEntryEach | main.go:262-397 | two entries, other than logged errors, never share a step, so no answer backs two deliveries |
| Runs.HistoryExplains | main.go:311-394 | over every history the commits form a chain from the first content to the row, each starting where the previous one ended |
| Runs.OneBaseline | main.go:314-322 | in such a chain a baseline is stored at most once, only if there was no row, and before every commit |
| Runs.FailureKeepsContent | main.go:187-203 | a run that logs a failure leaves the content as it was, except when all it failed at was a webhook, after the commit |
| Runs.RunEnds | main.go:187-203 | the five ways a run can end, with the complete log of each, including the prefix of `Mail.To` that got the error mail |
| Runs.NoChangeLost | main.go:327-381 | over every history, a run that has compared two different contents either announced the change to everybody and stored it, or logged a failure and left the old content for the next run |
| Runs.ErrorMailsGoToMailTo | internal/mail/mail.go:65-74 | error mails go to `Mail.To` only, whatever the additional recipients are |
| Runs.DryRunIsSilent | main.go:357-358 | over any number of dry runs no mail is delivered and no webhook called |
| Completion.CommitsIff | main.go:311-381 | a run that fetched a changed body stores it if and only if read, diff, dump, mail to everybody and update succeed (in dry-run mode without the mail); otherwise the old content stays |
| Completion.NoFetchedChangeLost | main.go:311-381 | a run that fetched a changed body, whatever fails afterwards, either announces this change to everybody and stores it, or logs a failure and leaves the old content |
| Completion.BaselineIff | main.go:311-322 | a first body becomes the baseline if and only if read and insert succeed |
| Completion.UnchangedKeepsCell | main.go:390-394 | an unchanged body is written back and the content stays, whatever fails |
| Completion.NoAnswerKeepsCell | main.go:263-309 | a run without a usable answer does not touch the row, whatever happens to its mails |
| Completion.HooksDoNotMatter | main.go:371-385 | two runs that differ only in the webhooks' answers store the same content |
| Completion.RunOnceReachable | main.go:187-203 | every run ends, and whole runs lead from reachable states to reachable ones |
| Successes.BaselineLog | main.go:314-322 | the first body of a new watch is inserted, and nothing else happens |
| Successes.UnchangedLog | main.go:390-394 | an unchanged body is written back without any mail or webhook |
| Successes.StoredLog | main.go:327-387 | when nothing fails before it, a changed content is stored after exactly: the diff git gave, a mail to each recipient in order, a call of each webhook with its own answer; a failure follows exactly if a webhook failed |
| Reports.ReportReachesIff | main.go:272-305 | after an invalid response a recipient is mailed the report if and only if this is no dry run, the status is not ignored, the mailer is made, and every letter up to and including theirs is accepted |
| Reports.TimeoutReportedIff | main.go:265-305 | for every accepted configuration, after a time-out on the last try a recipient is mailed the report if and only if this is no dry run, the mailer is made, and every letter up to and including theirs is accepted |
| Reports.AnswerReportedIff | main.go:272-305 | a bad answer to the last try is mailed with its own status and body if and only if this is no dry run, its status is on neither list, the mailer is made, and every letter up to the recipient's is accepted |
| Reports.IgnoredAnswerIsSilent | main.go:277-295 | an ignored status, or a dry run, leaves no trace: no mail, no failure, no change of the row |
| Reports.HeardSent | internal/mail/mail.go:176-188 | a letter goes out if and only if it is addressable and one of its tries is accepted after refused ones |
| Alarms.ErrorMailIff | main.go:189-201 | whatever step of a run fails, entry k of `Mail.To` is mailed the error if and only if this is no dry run, the mailer is made, and every letter up to theirs is accepted |
| Alarms.ProcessErrorMailIff | main.go:306-309 | the same for a page that cannot be fetched or processed |
| Alarms.RunMailsItsFailure | main.go:187-203 | a run logs a failure if and only if one of its steps failed; its error mails are those of that step, and a run without a failure mails no error |
| Alarms.TransportTimeoutIsSilent | main.go:265-271 | the dead branch would leave no trace |
| Reports.AdditionalRecipientReportedIff | README.md:27-28 | the same for an additional recipient outside `Mail.To`, whom the documentation exempts from errors |
| Reports.AdditionalRecipientReported | README.md:27-28 | a reachable state whose run has mailed the report to such a recipient |
| Shared.OtherStep | internal/database/sqlc/queries.sql.go:83-132 | no step of a job changes another watch's row or progress |
| Shared.Projection | main.go:187-203 | any interleaving of the jobs' steps is, for each watch, a sequential history of that watch alone |
| Shared.NobodyInterferes | main.go:311-394 | in every interleaving, a job about to insert finds no row for its pair, and between its read and its update the row is the one it read, with the same id and content |
| Shared.RowChangeAnnounced | main.go:327-381 | in every interleaving, a content is replaced by another one only by its own watch's job, after that job announced exactly this change |
| Restarts.RestartsExplain | internal/database/database.go:187-228 | across any number of restarts that keep a watch configured, each process ending anywhere and each reconciliation possibly cut short, the contents form one chain that ends at the row |
| Restarts.RestartsAnnounce | main.go:327-381 | across any number of restarts, whatever is configured, every entry of a watch's log was written by that session's own job, and if it stores a changed content outside dry-run mode the complete announcement of exactly this change comes directly before it |
| App.App.SendToAll | internal/mail/mail.go:127-151 | recipients are served in order with one letter each, whose tries are those that `Mail.SendOutcomeIff` describes; success if and only if all letters are accepted; the first letter that is not ends the list, and those before it were accepted |
| App.App.SendWebhooks | main.go:401-415 | each webhook is called once, in order, whatever the others answered; the combined error is nil if and only if all succeeded |
| App.App.ProcessWatch | main.go:262-397 | the code, call by call, keeps in step with the state machine, on the same replies and the same row |
| App.App.RunJob | main.go:187-203 | a job does exactly one run of the state machine, with the same events and the same final content, and ends in a state that some history reaches, so every result about histories holds for it; other watches' rows are untouched; it reports a failure if and only if its log has one, and the failure is mailed as `Alarms.ErrorMailIff` says |
| Startup.ScheduleAll | main.go:174-233 | the tasks are the enabled watches the scheduler took, in order, and the first runners are exactly those among the new entries |
| Startup.TasksDistinct | main.go:174-233 | with distinct keys no watch has two tasks |
| Startup.TasksArePlaced | main.go:174-233 | the tasks are the watches at ascending positions, each enabled and taken by the scheduler, and none of these is left out |
| Startup.StartCron | main.go:165-249 | in cron mode the jobs run at once are exactly the enabled, scheduled watches that had no row at start-up, each once; start-up fails if and only if a statement of the reconciliation fails or an enabled watch has no client, and has then deleted unconfigured rows only |
| Startup.RunAllOnce | main.go:175-214 | in once mode the watches before the first cancelled one, or the first without a client, end with the content that one run of their own gives, as if each had been alone; all others and foreign rows are untouched; an error is remembered if and only if one of these runs logged a failure or the rest was cancelled |
| Startup.TurnsLeave | main.go:175-214 | watch by watch: the content of its own run after its turn, the content as it was if it is disabled or has had none |
| Startup.RunOnceMode | main.go:82-106 | in once mode, with an accepted configuration, the program exits with 0 if and only if the reconciliation succeeds, no enabled watch lacks a client or is cancelled, and no run logs a failure; otherwise with 1 |

## Left out

- Html.WatchErrorMail: numbers, durations and the printed headers are parameters; the order in which a Go map yields headers is unspecified.
- Diff.ParsePrinted: a hunk's header line is assumed to hold no newline and no carriage return at its end, and the "no newline at end of file" marker is not printed.
- Diff.GenerateDiff: the 4096-byte limit of the scanner's buffer is counted in runes.
- Watch.Process: on an html2text error the code returns an object beside the error; its only caller ignores it, and so does the model.
- App.App.SendToAll: the texts of mails appear as a non-empty constant; what they show is proved in Html and Outputs.
- App.App.RunJob: the calls of one run are sequential, as in the code; interleaving with other jobs is in Shared.
- Database.InsertEffect: the new id is one more than the largest, which is what SQLite does below the largest 64-bit id.
- Invalid UTF-8: texts are sequences of runes.
- A nil body is not told apart from an empty one, although the column `last_content` refuses NULL (internal/database/migrations/20250330160308_notnull.sql).
- A statement that fails after it took effect, as a lost acknowledgement would cause: a failing statement changes nothing here.
- HTTP transport, proxy, TLS and SMTP sessions: each call is one answer of the environment.
- The git process and its diff algorithm: its output is arbitrary in the protocol and printed hunks in the parser's proofs; nothing is claimed about minimality, and a changed body may give an empty diff.
- goquery, gojq, gofeed, html2text and the users' own expressions: total or failing functions.
- SQLite pragmas, vacuum and migrations: only the table, its unique index and its statements.
- gocron and cron syntax: only that a job does not overlap itself.
- The page around the rows of the HTML mail, its style, and the metadata block of the text mail.
- Aliasing of the recipient slices: lists are values here, so the copy made by `slices.Concat` is not visible.
- Logging, flags, version output, time zones and durations.
