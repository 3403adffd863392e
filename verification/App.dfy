/** The program: processWatch step by step on the database, and the jobs around it. */
module App {
  import opened Basics
  import opened Config
  import opened Watch
  import opened Protocol
  import opened Runs
  import opened Completion
  import opened Shared
  import opened Alarms
  import opened Steps
  import Db = Database
  import Diff
  import Mail

  /** Mail texts are built in Html and Diff; for sending it matters only that they are not empty. */
  const MAIL_TEXT: Text := "mail"

  // ---- a list of mails ----

  ghost predicate ListAt(j: Job, tos: seq<string>, notice: Notice, k: nat, here: Pc, again: Pc, done: Pc,
                         failed: (Pc, seq<Event>))
  {
    && !here.Idle? && RequestAt(here).Quiet?
    && forall answer, input ::
         Next(j, here, answer, input) == AfterMail(tos, k, input.sent, notice, again, done, failed)
  }

  /**
    The steps of one list of mails: `at(k)` is before recipient k, `done` after the
    last, `failed` after a mail that could not be sent.
   */
  ghost predicate MailList(j: Job, tos: seq<string>, notice: Notice, at: nat -> Pc, done: Pc,
                           failed: (Pc, seq<Event>))
  {
    forall k: nat :: ListAt(j, tos, notice, k, at(k), at(k + 1), done, failed)
  }

  function MailingAt(last: Text, body: Text, diff: Diff.Diff): nat -> Pc {
    (k: nat) => Mailing(last, body, diff, k)
  }

  function ReportingAt(invalid: Invalid): nat -> Pc {
    (k: nat) => Reporting(invalid, k)
  }

  function AlarmingAt(): nat -> Pc {
    (k: nat) => Alarming(k)
  }

  lemma DiffList(j: Job, last: Text, body: Text, diff: Diff.Diff)
    ensures MailList(j, Recipients(j), DiffMail(diff), MailingAt(last, body, diff),
                     Hooking(last, body, diff, []), (Fail(j), [Failed]))
  {
    var at := MailingAt(last, body, diff);
    forall k: nat
      ensures ListAt(j, Recipients(j), DiffMail(diff), k, at(k), at(k + 1), Hooking(last, body, diff, []),
                     (Fail(j), [Failed]))
    {
    }
  }

  lemma ReportList(j: Job, invalid: Invalid)
    ensures MailList(j, Recipients(j), InvalidMail(invalid), ReportingAt(invalid), Idle, (Fail(j), [Failed]))
  {
    var at := ReportingAt(invalid);
    forall k: nat
      ensures ListAt(j, Recipients(j), InvalidMail(invalid), k, at(k), at(k + 1), Idle, (Fail(j), [Failed]))
    {
    }
  }

  lemma AlarmList(j: Job)
    ensures MailList(j, j.config.mail.to, ErrorMail, AlarmingAt(), Idle, (Idle, []))
  {
    var at := AlarmingAt();
    forall k: nat ensures ListAt(j, j.config.mail.to, ErrorMail, k, at(k), at(k + 1), Idle, (Idle, [])) {
    }
  }

  /** One step of such a list. */
  lemma MailListStep(j: Job, tos: seq<string>, notice: Notice, at: nat -> Pc, done: Pc, failed: (Pc, seq<Event>),
                     k: nat, s: State, reply: Reply)
    requires MailList(j, tos, notice, at, done, failed) && s.ctl.pc == at(k)
    ensures var s' := Step(j, s, reply);
            && s'.cell == s.cell && !s.ctl.pc.Idle?
            && (s'.ctl.pc, s'.ctl.run)
            == if k >= |tos| then (done, s.ctl.run)
               else if Sends(j, reply) then (at(k + 1), s.ctl.run + [Delivered(tos[k], notice)])
               else (failed.0, s.ctl.run + failed.1)
  {
    assert ListAt(j, tos, notice, k, at(k), at(k + 1), done, failed);
    assert s.ctl.run + [] == s.ctl.run;
  }

  /** Letter i was accepted, after tries that its own answers allow. */
  ghost predicate AcceptedAt(retries: int, env: nat -> Reply, clock: nat, results: seq<Mail.SendResult>, i: nat)
    requires i < |results|
  {
    results[i].Sent? && Mail.SendOutcome(retries, MAIL_TEXT, env(clock + i).letter, results[i])
  }

  ghost predicate AllAccepted(retries: int, env: nat -> Reply, clock: nat, results: seq<Mail.SendResult>) {
    forall i {:trigger AcceptedAt(retries, env, clock, results, i)} | 0 <= i < |results| ::
      AcceptedAt(retries, env, clock, results, i)
  }

  /** The first n recipients were served: what the log has gained, and what their letters came to. */
  ghost predicate ServedSoFar(tos: seq<string>, notice: Notice, n: nat, before: seq<Event>, log: seq<Event>,
                              retries: int, env: nat -> Reply, clock: nat, results: seq<Mail.SendResult>)
    requires n <= |tos|
  {
    && log == before + Served(tos[..n], notice)
    && |results| == n && AllAccepted(retries, env, clock, results)
  }

  /** A finished list: everybody was served, or those before the first letter that was not accepted. */
  ghost predicate ListServed(tos: seq<string>, notice: Notice, before: seq<Event>, log: seq<Event>, retries: int,
                             env: nat -> Reply, clock: nat, results: seq<Mail.SendResult>,
                             refused: Option<Mail.SendResult>)
  {
    var n := |results|;
    && n <= |tos| && ServedSoFar(tos, notice, n, before, log, retries, env, clock, results)
    && match refused
       case None => n == |tos|
       case Some(r) => n < |tos| && !r.Sent? && Mail.SendOutcome(retries, MAIL_TEXT, env(clock + n).letter, r)
  }

  lemma ListLogs(tos: seq<string>, notice: Notice, before: seq<Event>, log: seq<Event>, retries: int,
                 env: nat -> Reply, clock: nat, results: seq<Mail.SendResult>, refused: Option<Mail.SendResult>)
    requires ListServed(tos, notice, before, log, retries, env, clock, results, refused)
    ensures before <= log && (Failed !in before ==> Failed !in log)
    ensures refused.None? ==> log == before + Served(tos, notice)
  {
    assert tos[..|tos|] == tos;
  }

  lemma NoneServed(tos: seq<string>, notice: Notice, log: seq<Event>, retries: int, env: nat -> Reply, clock: nat)
    ensures ServedSoFar(tos, notice, 0, log, log, retries, env, clock, [])
  {
  }

  lemma OneMoreAccepted(retries: int, env: nat -> Reply, clock: nat, results: seq<Mail.SendResult>,
                        r: Mail.SendResult)
    requires AllAccepted(retries, env, clock, results) && r.Sent?
    requires Mail.SendOutcome(retries, MAIL_TEXT, env(clock + |results|).letter, r)
    ensures AllAccepted(retries, env, clock, results + [r])
  {
    var all := results + [r];
    forall i | 0 <= i < |all| ensures AcceptedAt(retries, env, clock, all, i) {
      if i < |results| {
        assert AcceptedAt(retries, env, clock, results, i);
      }
    }
  }

  lemma OneMoreServed(tos: seq<string>, notice: Notice, n: nat, before: seq<Event>, log: seq<Event>, retries: int,
                      env: nat -> Reply, clock: nat, results: seq<Mail.SendResult>, r: Mail.SendResult)
    requires n < |tos| && ServedSoFar(tos, notice, n, before, log, retries, env, clock, results)
    requires Mail.SendOutcome(retries, MAIL_TEXT, env(clock + n).letter, r) && r.Sent?
    ensures ServedSoFar(tos, notice, n + 1, before, log + [Delivered(tos[n], notice)], retries, env, clock,
                        results + [r])
  {
    OneMoreAccepted(retries, env, clock, results, r);
    ServedNext(tos, n, notice);
    Associate(before, Served(tos[..n], notice), [Delivered(tos[n], notice)]);
  }

  // ---- one run, one letter and one row ----

  lemma RunResult(j: Job, cell: Option<Text>, replies: nat -> Reply, n: nat, s: State)
    requires IsRun(j, Fresh(cell), Listening(j, replies), n, s) && n > 0 && s.ctl.pc.Idle?
    ensures s == RunOnce(j, Fresh(cell), Listening(j, replies)) && Reachable(j, s)
    ensures FailureIsMailed(j, Fresh(cell), Listening(j, replies), s.ctl.run)
  {
    RunMailsItsFailure(j, Fresh(cell), Listening(j, replies));
    IsRunOnce(j, Fresh(cell), Listening(j, replies), n, s);
    FreshReachable(j, cell);
    RunOnceReachable(j, Fresh(cell), replies);
  }

  /** Every other watch's row is the same. */
  ghost predicate OthersKept(w: Watch, before: Db.Table, after: Db.Table) {
    forall key: Key | key != w.key :: Db.Select(after, key) == Db.Select(before, key)
  }

  lemma SendMeans(j: Job, reply: Reply, result: Mail.SendResult)
    requires result == Mail.SendResultOf(j.config.mail.retries, MAIL_TEXT, reply.letter)
    ensures result.Sent? <==> Sends(j, reply)
  {
  }

  lemma InsertKeeps(w: Watch, t: Db.Table, body: Text)
    requires Db.Valid(t) && Db.Select(t, w.key).None?
    ensures OthersKept(w, t, Db.Insert(t, w.key, body))
    ensures Db.Contents(Db.Insert(t, w.key, body), w.key) == Some(body)
  {
    forall key: Key ensures key != w.key ==> Db.Select(Db.Insert(t, w.key, body), key) == Db.Select(t, key) {
      Db.InsertEffect(t, w.key, body, key);
    }
    Db.InsertEffect(t, w.key, body, w.key);
  }

  lemma UpdateKeeps(w: Watch, t: Db.Table, row: Db.Row, body: Text)
    requires Db.Valid(t) && Db.Select(t, w.key) == Some(row)
    ensures OthersKept(w, t, Db.Update(t, row.id, body))
    ensures Db.HasId(t, row.id) && Db.Contents(Db.Update(t, row.id, body), w.key) == Some(body)
  {
    forall key: Key | key != w.key
      ensures Db.Select(Db.Update(t, row.id, body), key) == Db.Select(t, key)
    {
      UpdateOther(t, row, body, key);
    }
    Db.UpdateSelect(t, row.id, body, w.key);
  }

  // ---- the program ----

  class App {
    const config: Configuration
    const dryRun: bool
    const dumpDiffHTML: bool
    const libs: Libraries
    const db: Db.Database
    var errorOccured: bool
    /** What the world answers during the current run, and how far the run has got. */
    var env: nat -> Reply
    var clock: nat
    /** What the current run has done. */
    var events: seq<Event>
    /** The state machine of Protocol, running alongside on the same replies, and where it started. */
    ghost var s: State
    ghost var start: State

    constructor (config: Configuration, dryRun: bool, dumpDiffHTML: bool, libs: Libraries, db: Db.Database,
                 env: nat -> Reply)
      ensures this.config == config && this.dryRun == dryRun && this.dumpDiffHTML == dumpDiffHTML
      ensures this.libs == libs && this.db == db && !errorOccured
    {
      this.config, this.dryRun, this.dumpDiffHTML, this.libs, this.db := config, dryRun, dumpDiffHTML, libs, db;
      this.env, clock, events, errorOccured := env, 0, [], false;
      s, start := Fresh(None), Fresh(None);
    }

    function JobOf(w: Watch): Job {
      Job(config, dryRun, dumpDiffHTML, libs, w)
    }

    ghost predicate Usable(w: Watch) {
      && config.retry.count >= 1
      && Aligned(config.compiledRetryOnMatch, config.retryOnMatch)
      && Aligned(w.compiledRetryOnMatch, w.retryOnMatch)
    }

    /** The state machine has made `clock` steps of one run. */
    ghost predicate Tracked(w: Watch)
      reads this`s, this`start, this`clock, this`env, db
    {
      && Usable(w) && Db.Valid(db.rows)
      && IsRun(JobOf(w), start, Listening(JobOf(w), env), clock, s)
    }

    /** Object and state machine agree on the replies, the steps and the watch's row. */
    ghost predicate Synced(w: Watch)
      reads this`s, this`start, this`clock, this`env, db
    {
      Tracked(w) && s.cell == Db.Contents(db.rows, w.key)
    }

    /** Both sides have done the same so far, and nothing has failed. */
    ghost predicate AtWork(w: Watch)
      reads this`s, this`start, this`clock, this`env, this`events, db
    {
      Synced(w) && s.ctl.run == events && Failed !in events
    }

    /** One step of the state machine, after the database has made it. */
    method Tick(w: Watch)
      requires Tracked(w) && (s.ctl.pc.Idle? ==> clock == 0)
      requires Step(JobOf(w), s, env(clock)).cell == Db.Contents(db.rows, w.key)
      modifies this`s, this`clock
      ensures clock == old(clock) + 1 && Synced(w)
      ensures s == Step(JobOf(w), old(s), env(old(clock)))
    {
      OneMoreReply(JobOf(w), start, env, clock, s);
      s, clock := Step(JobOf(w), s, env(clock)), clock + 1;
    }

    /** One mail of a list, with its retries; n recipients are served already. */
    method SendOne(w: Watch, tos: seq<string>, notice: Notice, n: nat,
                   ghost at: nat -> Pc, ghost done: Pc, ghost failed: (Pc, seq<Event>), ghost before: seq<Event>,
                   ghost began: nat, ghost results: seq<Mail.SendResult>)
      returns (result: Mail.SendResult)
      requires Synced(w) && s.ctl.pc == at(n) && s.ctl.run == events && n < |tos| && clock == began + n
      requires MailList(JobOf(w), tos, notice, at, done, failed)
      requires ServedSoFar(tos, notice, n, before, events, config.mail.retries, env, began, results)
      modifies this`s, this`clock, this`events
      ensures clock == old(clock) + 1 && Synced(w)
      ensures Mail.SendOutcome(config.mail.retries, MAIL_TEXT, env(began + n).letter, result)
      ensures result.Sent? ==>
                && s.ctl.pc == at(n + 1) && s.ctl.run == events
                && ServedSoFar(tos, notice, n + 1, before, events, config.mail.retries, env, began, results + [result])
      ensures !result.Sent? ==> s.ctl.pc == failed.0 && s.ctl.run == events + failed.1 && events == old(events)
    {
      result := Mail.Send(config.mail.retries, MAIL_TEXT, env(clock).letter);
      SendMeans(JobOf(w), env(clock), result);
      MailListStep(JobOf(w), tos, notice, at, done, failed, n, s, env(clock));
      Tick(w);
      if result.Sent? {
        OneMoreServed(tos, notice, n, before, events, config.mail.retries, env, began, results, result);
        events := events + [Delivered(tos[n], notice)];
      }
    }

    /** The step past the last recipient. */
    method EndList(w: Watch, ghost tos: seq<string>, ghost notice: Notice, ghost n: nat,
                   ghost at: nat -> Pc, ghost done: Pc, ghost failed: (Pc, seq<Event>))
      requires Synced(w) && s.ctl.pc == at(n) && s.ctl.run == events && n >= |tos|
      requires MailList(JobOf(w), tos, notice, at, done, failed)
      modifies this`s, this`clock
      ensures clock == old(clock) + 1 && Synced(w)
      ensures s.ctl.pc == done && s.ctl.run == events
    {
      MailListStep(JobOf(w), tos, notice, at, done, failed, n, s, env(clock));
      Tick(w);
    }

    /** All recipients in order; the first failure ends the list. */
    method SendToAll(w: Watch, tos: seq<string>, notice: Notice,
                     ghost at: nat -> Pc, ghost done: Pc, ghost failed: (Pc, seq<Event>))
      returns (ok: bool, ghost results: seq<Mail.SendResult>, ghost refused: Option<Mail.SendResult>)
      requires Synced(w) && s.ctl.pc == at(0) && s.ctl.run == events
      requires MailList(JobOf(w), tos, notice, at, done, failed)
      modifies this`s, this`clock, this`events
      ensures clock >= old(clock)
      ensures Synced(w)
      ensures s.ctl.pc == if ok then done else failed.0
      ensures s.ctl.run == if ok then events else events + failed.1
      ensures ok <==> refused.None?
      ensures ListServed(tos, notice, old(events), events, config.mail.retries, env, old(clock), results, refused)
    {
      results, refused := [], None;
      ghost var began, before := clock, events;
      NoneServed(tos, notice, events, config.mail.retries, env, clock);
      var n := 0;
      while n < |tos|
        invariant n <= |tos| && Synced(w) && clock == began + n
        invariant s.ctl.pc == at(n) && s.ctl.run == events && refused.None?
        invariant ServedSoFar(tos, notice, n, before, events, config.mail.retries, env, began, results)
      {
        var result := SendOne(w, tos, notice, n, at, done, failed, before, began, results);
        if !result.Sent? {
          ok, refused := false, Some(result);
          return;
        }
        results, n := results + [result], n + 1;
      }
      EndList(w, tos, notice, n, at, done, failed);
      ok := true;
    }

    /** mail.New, then the diff to everybody. */
    method SendDiffEmail(w: Watch, last: Text, body: Text, diff: Diff.Diff) returns (ok: bool)
      requires AtWork(w)
      requires s.ctl.pc == Composing(last, body, diff)
      modifies this`s, this`clock, this`events
      ensures clock >= old(clock)
      ensures Synced(w)
      ensures if ok then s.ctl.pc == Hooking(last, body, diff, []) && s.ctl.run == events
              else s.ctl.pc == Fail(JobOf(w)) && s.ctl.run == events + [Failed]
      ensures ok ==> events == old(events) + Served(config.mail.to + w.additionalTo, DiffMail(diff))
      ensures Failed !in events
    {
      var reply := env(clock);
      ComposeMoves(JobOf(w), s, Heard(JobOf(w), env(clock)));
      Tick(w);
      if !reply.mailer || !reply.rendered {
        return false;
      }
      DiffList(JobOf(w), last, body, diff);
      ghost var began, before, results, refused := clock, events, [], None;
      ok, results, refused := SendToAll(w, config.mail.to + w.additionalTo, DiffMail(diff), MailingAt(last, body, diff),
                                       Hooking(last, body, diff, []), (Fail(JobOf(w)), [Failed]));
      ListLogs(config.mail.to + w.additionalTo, DiffMail(diff), before, events, config.mail.retries, env, began,
               results, refused);
    }

    /** mail.New, then the report to everybody. */
    method SendWatchError(w: Watch, invalid: Invalid) returns (ok: bool)
      requires AtWork(w)
      requires s.ctl.pc == ComposingReport(invalid)
      modifies this`s, this`clock, this`events
      ensures clock >= old(clock)
      ensures Synced(w)
      ensures if ok then s.ctl.pc.Idle? && s.ctl.run == events
              else s.ctl.pc == Fail(JobOf(w)) && s.ctl.run == events + [Failed]
      ensures ok ==> events == old(events) + Served(config.mail.to + w.additionalTo, InvalidMail(invalid))
      ensures Failed !in events
    {
      ghost var j := JobOf(w);
      var reply := env(clock);
      ComposeReportMoves(j, s, Heard(j, env(clock)));
      Tick(w);
      if !reply.mailer {
        return false;
      }
      ReportList(j, invalid);
      ghost var began, before, results, refused := clock, events, [], None;
      ok, results, refused := SendToAll(w, config.mail.to + w.additionalTo, InvalidMail(invalid), ReportingAt(invalid),
                                       Idle, (Fail(j), [Failed]));
      ListLogs(config.mail.to + w.additionalTo, InvalidMail(invalid), before, events, config.mail.retries, env, began,
               results, refused);
    }

    /** mail.New, then the error to Mail.To; failures are only logged. */
    method SendErrorEmail(w: Watch)
      requires Synced(w) && s.ctl.run == events
      requires s.ctl.pc == ComposingError
      modifies this`s, this`clock, this`events
      ensures clock >= old(clock)
      ensures Synced(w)
      ensures s.ctl.pc.Idle? && s.ctl.run == events
      ensures old(events) <= events
    {
      var reply := env(clock);
      ComposeErrorMoves(JobOf(w), s, Heard(JobOf(w), env(clock)));
      Tick(w);
      if !reply.mailer {
        return;
      }
      AlarmList(JobOf(w));
      ghost var began, before, results, refused := clock, events, [], None;
      var ok;
      ok, results, refused := SendToAll(w, config.mail.to, ErrorMail, AlarmingAt(), Idle, (Idle, []));
      ListLogs(config.mail.to, ErrorMail, before, events, config.mail.retries, env, began, results, refused);
      assert s.ctl.run == events;
    }

    method SendWebhook(w: Watch, last: Text, body: Text, diff: Diff.Diff, ghost results: seq<bool>, n: nat)
      returns (ok: bool)
      requires AtWork(w)
      requires s.ctl.pc == Hooking(last, body, diff, results) && |results| == n < |w.webhooks|
      modifies this`s, this`clock, this`events
      ensures clock >= old(clock)
      ensures AtWork(w) && events == old(events) + [HookCalled(w.webhooks[n], ok)]
      ensures s.ctl.pc == Hooking(last, body, diff, results + [ok])
    {
      ok := env(clock).hookOk;
      HookMoves(JobOf(w), s, Heard(JobOf(w), env(clock)));
      Tick(w);
      events := events + [HookCalled(w.webhooks[n], ok)];
    }

    /** Every webhook in order; the errors are collected. */
    method SendWebhooks(w: Watch, last: Text, body: Text, diff: Diff.Diff)
      returns (failed: bool, ghost results: seq<bool>)
      requires AtWork(w)
      requires s.ctl.pc == Hooking(last, body, diff, [])
      modifies this`s, this`clock, this`events
      ensures clock >= old(clock)
      ensures AtWork(w)
      ensures s.ctl.pc == Updating(last, body, Some(diff), results)
      ensures |results| == |w.webhooks| && (failed <==> false in results)
      ensures events == old(events) + Called(w.webhooks, results)
    {
      failed, results := false, [];
      assert Called(w.webhooks, []) == [];
      for n := 0 to |w.webhooks|
        invariant AtWork(w) && clock >= old(clock)
        invariant s.ctl.pc == Hooking(last, body, diff, results)
        invariant |results| == n && (failed <==> false in results)
        invariant events == old(events) + Called(w.webhooks, results)
      {
        var ok := SendWebhook(w, last, body, diff, results, n);
        CalledNext(w.webhooks, results, ok);
        results := results + [ok];
        if !ok {
          failed := true;
        }
      }
      HookMoves(JobOf(w), s, Heard(JobOf(w), env(clock)));
      Tick(w);
    }

    /** Is the status on one of the two lists? */
    method IsIgnored(w: Watch, status: int) returns (ignore: bool)
      ensures ignore <==> Ignored(JobOf(w), status)
    {
      ignore := false;
      for i := 0 to |config.noErrorMailOnStatusCode|
        invariant ignore <==> status in config.noErrorMailOnStatusCode[..i]
      {
        if status == config.noErrorMailOnStatusCode[i] {
          ignore := true;
        }
      }
      for i := 0 to |w.noErrorMailOnStatusCode|
        invariant ignore <==> status in config.noErrorMailOnStatusCode || status in w.noErrorMailOnStatusCode[..i]
      {
        if status == w.noErrorMailOnStatusCode[i] {
          ignore := true;
        }
      }
    }

    /** How processWatch returns: the run is over, or it failed and the job has to tell. */
    ghost predicate Returned(w: Watch, failed: bool)
      reads this`s, this`events
    {
      && Failed !in events
      && if failed then s.ctl.pc == Fail(JobOf(w)) && s.ctl.run == events + [Failed]
         else s.ctl.pc.Idle? && s.ctl.run == events
    }

    /** The part of processWatch for an error of Process. */
    method HandleError(w: Watch, error: ProcessError) returns (failed: bool)
      requires Synced(w) && events == []
      requires (s.ctl.pc, s.ctl.run) == AfterFetch(JobOf(w), Err(error))
      modifies this`s, this`clock, this`events
      ensures clock >= old(clock)
      ensures Synced(w) && Returned(w, failed)
    {
      match error {
        case Transport(timeout) =>
          return !timeout;
        case Rejected(invalid) =>
          var ignore := IsIgnored(w, invalid.status);
          if ignore || dryRun {
            return false;
          }
          var ok := SendWatchError(w, invalid);
          return !ok;
        case Cancelled =>
          return true;
        case StageFailed =>
          return true;
      }
    }

    /** The first content of a new watch. */
    method StoreBaseline(w: Watch, body: Text) returns (failed: bool)
      requires AtWork(w)
      requires s.ctl.pc == Inserting(body) && Db.Select(db.rows, w.key).None?
      modifies this`s, this`clock, this`events, db
      ensures clock >= old(clock)
      ensures Synced(w) && Returned(w, failed)
      ensures OthersKept(w, old(db.rows), db.rows)
    {
      var id := db.InsertWatch(w.key, body, env(clock).dbFault);
      InsertMoves(JobOf(w), s, Heard(JobOf(w), env(clock)));
      InsertKeeps(w, old(db.rows), body);
      Tick(w);
      if id.Err? {
        return true;
      }
      events := events + [Inserted(body)];
      return false;
    }

    /** The row found before is still there, so only a failing statement can stop the update. */
    method UpdateRow(w: Watch, row: Db.Row, body: Text, fault: bool) returns (ok: bool)
      requires Db.Valid(db.rows) && Db.Select(db.rows, w.key) == Some(row)
      modifies db
      ensures Db.Valid(db.rows) && OthersKept(w, old(db.rows), db.rows)
      ensures ok <==> !fault
      ensures Db.Contents(db.rows, w.key) == Some(if ok then body else row.content)
    {
      UpdateKeeps(w, db.rows, row, body);
      ok := db.UpdateLastContent(row.id, body, fault);
    }

    /** Writes the new content; a webhook's error is returned only after that. */
    method StoreUpdate(w: Watch, row: Db.Row, body: Text, webhookErr: bool,
                       ghost shown: Option<Diff.Diff>, ghost results: seq<bool>) returns (failed: bool)
      requires AtWork(w)
      requires Db.Select(db.rows, w.key) == Some(row)
      requires s.ctl.pc == Updating(row.content, body, shown, results) && (webhookErr <==> false in results)
      modifies this`s, this`clock, this`events, db
      ensures clock >= old(clock)
      ensures Synced(w) && Returned(w, failed)
      ensures OthersKept(w, old(db.rows), db.rows)
    {
      var ok := UpdateRow(w, row, body, env(clock).dbFault);
      UpdateMoves(JobOf(w), s, Heard(JobOf(w), env(clock)));
      Tick(w);
      if !ok {
        return true;
      }
      events := events + [Committed(row.content, body)];
      return webhookErr;
    }

    /** GenerateDiff and, if asked for, the dump; None is an error. */
    method MakeDiff(w: Watch, last: Text, body: Text) returns (d: Option<Diff.Diff>)
      requires AtWork(w) && s.ctl.pc == Diffing(last, body)
      modifies this`s, this`clock, this`events
      ensures clock >= old(clock)
      ensures Synced(w)
      ensures Failed !in events
      ensures d.None? ==> s.ctl.pc == Fail(JobOf(w)) && s.ctl.run == events + [Failed]
      ensures d.Some? ==>
                && s.ctl.run == events
                && s.ctl.pc == if dryRun then Updating(last, body, d, []) else Composing(last, body, d.value)
    {
      var reply := env(clock);
      DiffMoves(JobOf(w), s, Heard(JobOf(w), env(clock)));
      Tick(w);
      var raw := reply.git(last, body);
      if raw.None? {
        return None;
      }
      d := Diff.GenerateDiff(raw.value);
      if d.None? || (dumpDiffHTML && !reply.dumped) {
        return None;
      }
      events := events + [Compared(last, body, d.value)];
    }

    /** A changed body: diff, notify unless in dry-run mode, then store. */
    method HandleChange(w: Watch, row: Db.Row, body: Text) returns (failed: bool)
      requires AtWork(w)
      requires Db.Select(db.rows, w.key) == Some(row) && s.ctl.pc == Diffing(row.content, body)
      modifies this`s, this`clock, this`events, db
      ensures clock >= old(clock)
      ensures Synced(w) && Returned(w, failed)
      ensures OthersKept(w, old(db.rows), db.rows)
    {
      var d := MakeDiff(w, row.content, body);
      if d.None? {
        return true;
      }
      var webhookErr := false;
      ghost var results: seq<bool> := [];
      if !dryRun {
        var ok := SendDiffEmail(w, row.content, body, d.value);
        if !ok {
          return true;
        }
        webhookErr, results := SendWebhooks(w, row.content, body, d.value);
      }
      failed := StoreUpdate(w, row, body, webhookErr, d, results);
    }

    /** The part of processWatch for a fetched body. */
    method HandleBody(w: Watch, body: Text) returns (failed: bool)
      requires AtWork(w)
      requires s.ctl.pc == Reading(body)
      modifies this`s, this`clock, this`events, db
      ensures clock >= old(clock)
      ensures Synced(w) && Returned(w, failed)
      ensures OthersKept(w, old(db.rows), db.rows)
    {
      var row := db.GetLastContent(w.key, env(clock).dbFault);
      ReadMoves(JobOf(w), s, Heard(JobOf(w), env(clock)));
      Tick(w);
      match row {
        case Err(NotFound) =>
          failed := StoreBaseline(w, body);
        case Err(StatementFailed) =>
          return true;
        case Ok(found) =>
          Db.SelectUnique(db.rows, found);
          if found.content != body {
            failed := HandleChange(w, found, body);
          } else {
            failed := StoreUpdate(w, found, body, false, None, []);
          }
      }
    }

    method ProcessWatch(w: Watch, net: Network) returns (failed: bool)
      requires Synced(w) && s.ctl.pc.Idle? && clock == 0 && s.ctl.run == events == []
      requires env(0).fetched == Processed(w, config, libs, net)
      modifies this`s, this`clock, this`events, db
      ensures clock > 0 && Synced(w) && Returned(w, failed)
      ensures OthersKept(w, old(db.rows), db.rows)
    {
      var ret, error := Process(w, config, libs, net);
      FetchMoves(JobOf(w), s, Heard(JobOf(w), env(0)));
      Tick(w);
      if error.Some? {
        failed := HandleError(w, error.value);
      } else {
        failed := HandleBody(w, ret.body);
      }
    }

    /** A new run: both sides start at the row as it is. */
    method Begin(w: Watch, replies: nat -> Reply)
      requires Usable(w) && Db.Valid(db.rows)
      modifies this
      ensures Synced(w) && errorOccured == old(errorOccured)
      ensures s == start == Fresh(Db.Contents(db.rows, w.key))
      ensures clock == 0 && events == [] && env == replies
    {
      env, clock, events := replies, 0, [];
      s := Fresh(Db.Contents(db.rows, w.key));
      start := s;
      NoSteps(JobOf(w), s, Listening(JobOf(w), env));
    }

    /** A job logs an error and, unless in dry-run mode, mails it. */
    method LogError(w: Watch)
      requires Synced(w) && s.ctl.pc == Fail(JobOf(w)) && s.ctl.run == events + [Failed]
      modifies this`s, this`clock, this`events, this`errorOccured
      ensures clock >= old(clock)
      ensures Synced(w) && s.ctl.pc.Idle? && s.ctl.run == events
      ensures errorOccured && Failed in events
    {
      errorOccured := true;
      events := events + [Failed];
      ghost var last := |events| - 1;
      if !dryRun {
        SendErrorEmail(w);
      }
      assert events[last] == Failed;
    }

    /** From the start of a run to its end. */
    method RunToEnd(w: Watch, net: Network, replies: nat -> Reply) returns (failed: bool)
      requires Usable(w) && Db.Valid(db.rows)
      requires replies(0).fetched == Processed(w, config, libs, net)
      modifies this, db
      ensures Synced(w) && clock > 0 && s.ctl.pc.Idle? && s.ctl.run == events
      ensures env == replies && start == Fresh(old(Db.Contents(db.rows, w.key)))
      ensures OthersKept(w, old(db.rows), db.rows)
      ensures (errorOccured <==> old(errorOccured) || failed) && (failed <==> Failed in events)
    {
      Begin(w, replies);
      failed := ProcessWatch(w, net);
      if failed {
        LogError(w);
      }
    }

    /**
      The job of one watch does what the state machine does in one run: the same
      calls, the same mails and the same row, so what holds over the machine's
      histories holds here; no other watch's row changes. The first reply is what
      Process makes of the network.
     */
    method RunJob(w: Watch, net: Network, replies: nat -> Reply) returns (failed: bool)
      requires Usable(w) && Db.Valid(db.rows)
      requires replies(0).fetched == Processed(w, config, libs, net)
      modifies this, db
      ensures Db.Valid(db.rows) && OthersKept(w, old(db.rows), db.rows)
      ensures JobOf(w) == Job(config, dryRun, dumpDiffHTML, libs, w)
      ensures s == RunOnce(JobOf(w), Fresh(old(Db.Contents(db.rows, w.key))), Listening(JobOf(w), replies))
      ensures Reachable(JobOf(w), s)
      ensures FailureIsMailed(JobOf(w), Fresh(old(Db.Contents(db.rows, w.key))), Listening(JobOf(w), replies), events)
      ensures Db.Contents(db.rows, w.key) == s.cell && events == s.ctl.run
      ensures (errorOccured <==> old(errorOccured) || failed) && (failed <==> Failed in events)
    {
      failed := RunToEnd(w, net, replies);
      RunResult(JobOf(w), start.cell, replies, clock, s);
    }
  }
}
