/** Who gets the mail about an invalid response. */
module Reports {
  import opened Basics
  import opened Config
  import opened Watch
  import opened Protocol
  import opened Runs
  import opened Completion
  import opened Steps
  import Mail

  lemma MovesGrow(j: Job, s: State, input: Input)
    requires !s.ctl.pc.Idle?
    ensures s.ctl.run <= Moves(j, s, input).ctl.run
  {
  }

  lemma {:induction false} FinishGrows(j: Job, s: State, inputs: nat -> Input, clock: nat)
    ensures s.ctl.run <= Finish(j, s, inputs, clock).ctl.run
    decreases Rank(j, s.ctl.pc)
  {
    if !s.ctl.pc.Idle? {
      FinishStep(j, s, inputs, clock);
      MovesGrow(j, s, inputs(clock));
      RankDrops(j, s.ctl.pc, ServeCell(s.cell, RequestAt(s.ctl.pc), inputs(clock).reply.dbFault).0, inputs(clock));
      FinishGrows(j, Moves(j, s, inputs(clock)), inputs, clock + 1);
    }
  }

  // ---- after a failure only error mails follow ----

  predicate Alarms(pc: Pc) {
    pc.Idle? || pc.ComposingError? || pc.Alarming?
  }

  lemma NoReportMoves(j: Job, s: State, input: Input, e: Event)
    requires !s.ctl.pc.Idle? && Alarms(s.ctl.pc) && e.Delivered? && e.notice.InvalidMail?
    ensures var s' := Moves(j, s, input);
            Alarms(s'.ctl.pc) && Rank(j, s'.ctl.pc) < Rank(j, s.ctl.pc) && (e in s'.ctl.run ==> e in s.ctl.run)
  {
  }

  lemma {:induction false} NoReportAfterFailure(j: Job, s: State, inputs: nat -> Input, clock: nat, e: Event)
    requires Alarms(s.ctl.pc) && e.Delivered? && e.notice.InvalidMail? && e !in s.ctl.run
    ensures e !in Finish(j, s, inputs, clock).ctl.run
    decreases Rank(j, s.ctl.pc)
  {
    if !s.ctl.pc.Idle? {
      FinishStep(j, s, inputs, clock);
      NoReportMoves(j, s, inputs(clock), e);
      NoReportAfterFailure(j, Moves(j, s, inputs(clock)), inputs, clock + 1, e);
    }
  }

  // ---- the report's own mails ----

  lemma StaysInLog(j: Job, s: State, inputs: nat -> Input, clock: nat, i: nat)
    requires i < |s.ctl.run|
    ensures s.ctl.run[i] in Finish(j, s, inputs, clock).ctl.run
  {
    FinishGrows(j, s, inputs, clock);
    assert Finish(j, s, inputs, clock).ctl.run[i] == s.ctl.run[i];
  }

  lemma NotServedYet(j: Job, run: seq<Event>, n: nat, k: nat, invalid: Invalid)
    requires n < k < |Recipients(j)| && Recipients(j)[k] !in Recipients(j)[..k]
    requires Delivered(Recipients(j)[k], InvalidMail(invalid)) !in run
    ensures Delivered(Recipients(j)[k], InvalidMail(invalid))
              !in run + [Delivered(Recipients(j)[n], InvalidMail(invalid))]
  {
    assert Recipients(j)[..k][n] == Recipients(j)[n];
  }

  /** With n recipients served, recipient k is served if and only if the next k - n + 1 mails are accepted. */
  lemma {:induction false} ReportPhase(j: Job, s: State, inputs: nat -> Input, clock: nat, n: nat, k: nat)
    requires n <= k < |Recipients(j)| && Recipients(j)[k] !in Recipients(j)[..k]
    requires s.ctl.pc.Reporting? && s.ctl.pc.next == n
    requires Delivered(Recipients(j)[k], InvalidMail(s.ctl.pc.invalid)) !in s.ctl.run
    ensures Delivered(Recipients(j)[k], InvalidMail(s.ctl.pc.invalid)) in Finish(j, s, inputs, clock).ctl.run
       <==> AllSent(inputs, clock, k - n + 1)
    decreases k - n
  {
    var s' := Moves(j, s, inputs(clock));
    FinishStep(j, s, inputs, clock);
    ReportMoves(j, s, inputs(clock));
    OneSent(inputs, clock, k - n + 1);
    if !inputs(clock).sent {
      NoReportAfterFailure(j, s', inputs, clock + 1, Delivered(Recipients(j)[k], InvalidMail(s.ctl.pc.invalid)));
    } else if n == k {
      StaysInLog(j, s', inputs, clock + 1, |s.ctl.run|);
    } else {
      NotServedYet(j, s.ctl.run, n, k, s.ctl.pc.invalid);
      ReportPhase(j, s', inputs, clock + 1, n + 1, k);
    }
  }

  /**
    After an invalid response, a recipient of the diff mails is mailed the report if
    and only if this is no dry run, the status is not ignored, the mailer is made,
    and every letter up to and including theirs is accepted.
   */
  lemma ReportReachesIff(j: Job, s: State, inputs: nat -> Input, invalid: Invalid, k: nat)
    requires s.ctl.pc.Idle? && inputs(0).reply.fetched == Err(Rejected(invalid))
    requires k < |j.config.mail.to + j.watch.additionalTo|
    requires (j.config.mail.to + j.watch.additionalTo)[k] !in (j.config.mail.to + j.watch.additionalTo)[..k]
    ensures var codes := j.config.noErrorMailOnStatusCode + j.watch.noErrorMailOnStatusCode;
            Delivered((j.config.mail.to + j.watch.additionalTo)[k], InvalidMail(invalid))
              in RunOnce(j, s, inputs).ctl.run
            <==> !j.dryRun && invalid.status !in codes && inputs(1).reply.mailer
                 && forall i | 2 <= i <= 2 + k :: inputs(i).sent
  {
    var e := Delivered(Recipients(j)[k], InvalidMail(invalid));
    var s1 := Moves(j, s, inputs(0));
    FetchMoves(j, s, inputs(0));
    if s1.ctl.pc.ComposingReport? {
      var s2 := Moves(j, s1, inputs(1));
      FinishStep(j, s1, inputs, 1);
      ComposeReportMoves(j, s1, inputs(1));
      if inputs(1).reply.mailer {
        ReportPhase(j, s2, inputs, 2, 0, k);
      } else {
        NoReportAfterFailure(j, s2, inputs, 2, e);
      }
    }
  }

  /** So the additional recipients are notified of it, although they get no error mails. */
  lemma AdditionalRecipientReportedIff(j: Job, s: State, inputs: nat -> Input, invalid: Invalid, k: nat)
    requires s.ctl.pc.Idle? && inputs(0).reply.fetched == Err(Rejected(invalid))
    requires k < |j.watch.additionalTo|
    requires j.watch.additionalTo[k] !in j.config.mail.to && j.watch.additionalTo[k] !in j.watch.additionalTo[..k]
    ensures var codes := j.config.noErrorMailOnStatusCode + j.watch.noErrorMailOnStatusCode;
            Delivered(j.watch.additionalTo[k], InvalidMail(invalid)) in RunOnce(j, s, inputs).ctl.run
            <==> !j.dryRun && invalid.status !in codes && inputs(1).reply.mailer
                 && forall i | 2 <= i <= 2 + |j.config.mail.to| + k :: inputs(i).sent
  {
    var to, more := j.config.mail.to, j.watch.additionalTo;
    var n := |to| + k;
    assert Recipients(j)[n] == more[k];
    assert Recipients(j)[..n] == to + more[..k];
    ReportReachesIff(j, s, inputs, invalid, n);
  }

  // ---- time-outs ----

  lemma ProcessedOfFetched(j: Job, net: Network, e: FetchError)
    requires j.config.retry.count >= 1
    requires Fetched(Taken(j.watch, j.config, j.libs), j.config.retry, net) == Err(e)
    ensures Processed(j.watch, j.config, j.libs, net) == Err(FromFetch(e))
  {
  }

  /** No try brings an answer that is taken, and no delay is cut short. */
  ghost predicate AllTriesBad(j: Job, net: Network) {
    && (forall k {:trigger net.attempt(k)} | 1 <= k <= j.config.retry.count ::
          net.attempt(k).Answer? ==> !Taken(j.watch, j.config, j.libs)(net.attempt(k).response))
    && (forall k {:trigger net.cancelled(k)} | 2 <= k <= j.config.retry.count ::
          j.config.retry.delay > 0 ==> !net.cancelled(k))
  }

  /**
    A time-out on the last try is reported like every other transport error: for
    every accepted configuration, a recipient is mailed the report if and only if
    this is no dry run, the mailer is made, and every letter up to and including
    theirs is accepted.
   */
  lemma TimeoutReportedIff(j: Job, s: State, inputs: nat -> Input, net: Network, k: nat)
    requires s.ctl.pc.Idle? && j.config.retry.count >= 1
    requires ValidCodes(j.config.noErrorMailOnStatusCode) && ValidCodes(j.watch.noErrorMailOnStatusCode)
    requires net.attempt(j.config.retry.count) == NoAnswer(true) && AllTriesBad(j, net)
    requires inputs(0).reply.fetched == Processed(j.watch, j.config, j.libs, net)
    requires k < |j.config.mail.to + j.watch.additionalTo|
    requires (j.config.mail.to + j.watch.additionalTo)[k] !in (j.config.mail.to + j.watch.additionalTo)[..k]
    ensures Delivered((j.config.mail.to + j.watch.additionalTo)[k],
                      InvalidMail(Invalid(TransportError(NoAnswer(true)), 0, [])))
              in RunOnce(j, s, inputs).ctl.run
       <==> !j.dryRun && inputs(1).reply.mailer && forall i | 2 <= i <= 2 + k :: inputs(i).sent
  {
    var invalid := Invalid(TransportError(NoAnswer(true)), 0, []);
    NoAnswerIsReported(Taken(j.watch, j.config, j.libs), j.config.retry, net, true);
    ProcessedOfFetched(j, net, InvalidResponse(invalid));
    ReportReachesIff(j, s, inputs, invalid, k);
  }

  // ---- a bad answer to the last try ----

  /**
    A bad answer to the last try is mailed with its own status and body, to everybody
    whose letter and those before it are accepted, unless the status is on one of the
    two lists; then nothing is logged, mailed or stored.
   */
  lemma AnswerReportedIff(j: Job, s: State, inputs: nat -> Input, net: Network, r: Response, k: nat)
    requires s.ctl.pc.Idle? && j.config.retry.count >= 1
    requires net.attempt(j.config.retry.count) == Answer(r) && AllTriesBad(j, net)
    requires inputs(0).reply.fetched == Processed(j.watch, j.config, j.libs, net)
    requires k < |j.config.mail.to + j.watch.additionalTo|
    requires (j.config.mail.to + j.watch.additionalTo)[k] !in (j.config.mail.to + j.watch.additionalTo)[..k]
    ensures Delivered((j.config.mail.to + j.watch.additionalTo)[k],
                      InvalidMail(Invalid(ResponseError(r), r.status, r.body)))
              in RunOnce(j, s, inputs).ctl.run
       <==> && !j.dryRun
            && r.status !in j.config.noErrorMailOnStatusCode && r.status !in j.watch.noErrorMailOnStatusCode
            && inputs(1).reply.mailer && forall i | 2 <= i <= 2 + k :: inputs(i).sent
  {
    var invalid := Invalid(ResponseError(r), r.status, r.body);
    LastAnswerIsReported(Taken(j.watch, j.config, j.libs), j.config.retry, net, r);
    ProcessedOfFetched(j, net, InvalidResponse(invalid));
    ReportReachesIff(j, s, inputs, invalid, k);
  }

  /** An ignored status, or a dry run, leaves no trace at all. */
  lemma IgnoredAnswerIsSilent(j: Job, s: State, inputs: nat -> Input, net: Network, r: Response)
    requires s.ctl.pc.Idle? && j.config.retry.count >= 1
    requires net.attempt(j.config.retry.count) == Answer(r) && AllTriesBad(j, net)
    requires inputs(0).reply.fetched == Processed(j.watch, j.config, j.libs, net)
    requires j.dryRun || r.status in j.config.noErrorMailOnStatusCode || r.status in j.watch.noErrorMailOnStatusCode
    ensures RunOnce(j, s, inputs).ctl.run == [] && RunOnce(j, s, inputs).cell == s.cell
  {
    var invalid := Invalid(ResponseError(r), r.status, r.body);
    LastAnswerIsReported(Taken(j.watch, j.config, j.libs), j.config.retry, net, r);
    ProcessedOfFetched(j, net, InvalidResponse(invalid));
    FetchMoves(j, s, inputs(0));
  }

  /** Whether a letter goes out, in terms of the server's answers to its tries. */
  lemma HeardSent(j: Job, reply: Reply)
    ensures Heard(j, reply).reply == reply
    ensures Heard(j, reply).sent <==>
              && reply.letter.addressable
              && exists n | 1 <= n <= j.config.mail.retries ::
                   && reply.letter.smtp(n) == Mail.Accepted
                   && forall k | 1 <= k < n :: reply.letter.smtp(k) == Mail.Refused
  {
    var r := Mail.SendResultOf(j.config.mail.retries, "x", reply.letter);
    Mail.SendOutcomeIff(j.config.mail.retries, "x", reply.letter, r);
    if n :| 1 <= n <= j.config.mail.retries && reply.letter.addressable && reply.letter.smtp(n) == Mail.Accepted
            && forall k | 1 <= k < n :: reply.letter.smtp(k) == Mail.Refused
    {
      Mail.SendOutcomeIff(j.config.mail.retries, "x", reply.letter, Mail.Sent(n));
    }
    if Heard(j, reply).sent {
      assert reply.letter.smtp(r.tries) == Mail.Accepted;
    }
  }

  // ---- a case ----

  /** One global and one additional recipient, nothing ignored. */
  function SmallJob(libs: Libraries): Job {
    var mail := MailConfig(["ops@example.org"], 1);
    Job(Configuration(mail, RetryConfig(1, 0), [], [], [], []), false, false, libs,
        Watch(Key("page", "http://a.example/"), "@hourly", "", "GET", "", map[], ["dev@example.org"], [], false,
              "", [], [], [], false, "", false, "", false, false, [], false, false, false))
  }

  /** The server answered 404, and every mail is accepted. */
  function NotFoundReply(): Reply {
    var invalid := Invalid(ResponseError(Response(404, [])), 404, []);
    Reply(Err(Rejected(invalid)), false, (a, b) => None, true, true, true, Mail.Letter(true, n => Mail.Accepted), true)
  }

  lemma MailAccepted(libs: Libraries)
    ensures Sends(SmallJob(libs), NotFoundReply())
  {
  }

  function Always(reply: Reply): nat -> Reply {
    (n: nat) => reply
  }

  lemma AlwaysHeard(j: Job, reply: Reply, n: nat)
    ensures Listening(j, Always(reply))(n) == Heard(j, reply)
  {
  }

  lemma SmallJobSends(libs: Libraries, i: nat)
    ensures Listening(SmallJob(libs), Always(NotFoundReply()))(i).sent
  {
    MailAccepted(libs);
    AlwaysHeard(SmallJob(libs), NotFoundReply(), i);
  }

  /** There is a run that mails an additional recipient, who is not in Mail.To, about an error. */
  lemma AdditionalRecipientReported(libs: Libraries)
    ensures exists s, invalid ::
              && Reachable(SmallJob(libs), s)
              && "dev@example.org" !in SmallJob(libs).config.mail.to
              && Delivered("dev@example.org", InvalidMail(invalid)) in s.ctl.run
  {
    var j, reply := SmallJob(libs), NotFoundReply();
    var inputs := Listening(j, Always(reply));
    var invalid := Invalid(ResponseError(Response(404, [])), 404, []);
    var s := RunOnce(j, Fresh(None), inputs);
    FreshReachable(j, None);
    RunOnceReachable(j, Fresh(None), Always(reply));
    AlwaysHeard(j, reply, 0);
    AlwaysHeard(j, reply, 1);
    forall i: nat ensures inputs(i).sent {
      SmallJobSends(libs, i);
    }
    assert j.watch.additionalTo[0] == "dev@example.org" && j.config.mail.to[0] == "ops@example.org";
    AdditionalRecipientReportedIff(j, Fresh(None), inputs, invalid, 0);
    assert Delivered("dev@example.org", InvalidMail(invalid)) in s.ctl.run;
  }
}
