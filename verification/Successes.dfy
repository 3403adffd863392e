/** The complete log of a run in which nothing fails, or only webhooks do. */
module Successes {
  import opened Basics
  import opened Watch
  import opened Protocol
  import opened Runs
  import opened Completion
  import opened Steps
  import opened Reports
  import Diff

  /** The first body of a new watch is stored, and that is all. */
  lemma BaselineLog(j: Job, s: State, inputs: nat -> Input, fetched: Response)
    requires s.ctl.pc.Idle? && s.cell == None && inputs(0).reply.fetched == Ok(fetched)
    requires !inputs(1).reply.dbFault && !inputs(2).reply.dbFault
    ensures RunOnce(j, s, inputs).ctl.run == [Inserted(fetched.body)]
  {
    var s1 := Moves(j, s, inputs(0));
    FetchMoves(j, s, inputs(0));
    FinishStep(j, s1, inputs, 1);
    ReadMoves(j, s1, inputs(1));
    FinishStep(j, Moves(j, s1, inputs(1)), inputs, 2);
    InsertMoves(j, Moves(j, s1, inputs(1)), inputs(2));
  }

  /** An unchanged body is written back without a word to anybody. */
  lemma UnchangedLog(j: Job, s: State, inputs: nat -> Input, fetched: Response)
    requires s.ctl.pc.Idle? && s.cell == Some(fetched.body) && inputs(0).reply.fetched == Ok(fetched)
    requires !inputs(1).reply.dbFault && !inputs(2).reply.dbFault
    ensures RunOnce(j, s, inputs).ctl.run == [Committed(fetched.body, fetched.body)]
  {
    var s1 := Moves(j, s, inputs(0));
    FetchMoves(j, s, inputs(0));
    FinishStep(j, s1, inputs, 1);
    ReadMoves(j, s1, inputs(1));
    FinishStep(j, Moves(j, s1, inputs(1)), inputs, 2);
    UpdateMoves(j, Moves(j, s1, inputs(1)), inputs(2));
  }

  // ---- a change that is announced and stored ----

  lemma ChangeComposed(j: Job, s: State, inputs: nat -> Input, last: Text, fetched: Response, diff: Diff.Diff)
    returns (s': State)
    requires !j.dryRun && s.ctl.pc.Idle? && s.cell == Some(last) && inputs(0).reply.fetched == Ok(fetched)
    requires fetched.body != last && !inputs(1).reply.dbFault
    requires DiffNow(inputs(2).reply, last, fetched.body) == Some(diff)
    requires (j.dumpDiffHTML ==> inputs(2).reply.dumped) && inputs(3).reply.mailer && inputs(3).reply.rendered
    ensures RunOnce(j, s, inputs) == Finish(j, s', inputs, 4)
    ensures Inv(j, s') && s'.cell == Some(last) && s'.ctl.pc == Mailing(last, fetched.body, diff, 0)
  {
    var s1 := Moves(j, s, inputs(0));
    FetchMoves(j, s, inputs(0));
    BeginKeepsInv(j, s, inputs(0));
    FinishStep(j, s1, inputs, 1);
    ReadMoves(j, s1, inputs(1));
    MovesKeepsInv(j, s1, inputs(1));
    var s2 := Moves(j, s1, inputs(1));
    FinishStep(j, s2, inputs, 2);
    DiffMoves(j, s2, inputs(2));
    MovesKeepsInv(j, s2, inputs(2));
    var s3 := Moves(j, s2, inputs(2));
    FinishStep(j, s3, inputs, 3);
    ComposeMoves(j, s3, inputs(3));
    MovesKeepsInv(j, s3, inputs(3));
    s' := Moves(j, s3, inputs(3));
  }

  /** The log goes on after `told` with a failure, or not at all. */
  ghost predicate Ends(log: seq<Event>, told: seq<Event>, oks: seq<bool>) {
    if false in oks then told + [Failed] <= log else log == told
  }

  /** Answer i is what webhook i said, whose call is input number base + i. */
  ghost predicate IsAnswer(inputs: nat -> Input, base: nat, oks: seq<bool>, i: nat)
    requires i < |oks|
  {
    oks[i] == inputs(base + i).reply.hookOk
  }

  ghost predicate AreAnswers(inputs: nat -> Input, base: nat, oks: seq<bool>) {
    forall i {:trigger IsAnswer(inputs, base, oks, i)} | 0 <= i < |oks| :: IsAnswer(inputs, base, oks, i)
  }

  lemma OneMoreAnswer(inputs: nat -> Input, base: nat, oks: seq<bool>, ok: bool)
    requires AreAnswers(inputs, base, oks) && ok == inputs(base + |oks|).reply.hookOk
    ensures AreAnswers(inputs, base, oks + [ok])
  {
    var all := oks + [ok];
    forall i | 0 <= i < |all| ensures IsAnswer(inputs, base, all, i) {
      if i < |oks| {
        assert IsAnswer(inputs, base, oks, i);
      }
    }
  }

  /** The run is announcing the change and has come as far as its clock says; n is the number of recipients. */
  ghost predicate OnTrack(pc: Pc, inputs: nat -> Input, clock: nat, last: Text, body: Text, diff: Diff.Diff, n: nat,
                          h: nat)
  {
    match pc
    case Mailing(l, b, d, next) => (l, b, d) == (last, body, diff) && clock == 4 + next && next <= n
    case Hooking(l, b, d, oks) =>
      (l, b, d) == (last, body, diff) && clock == 5 + n + |oks| && |oks| <= h && AreAnswers(inputs, 5 + n, oks)
    case Updating(l, b, shown, oks) =>
      (l, b, shown) == (last, body, Some(diff)) && clock == 6 + n + h && |oks| == h && AreAnswers(inputs, 5 + n, oks)
    case _ => false
  }

  lemma MailOnTrack(j: Job, s: State, inputs: nat -> Input, clock: nat, last: Text, body: Text, diff: Diff.Diff, n: nat)
    requires s.ctl.pc.Mailing? && OnTrack(s.ctl.pc, inputs, clock, last, body, diff, n, |j.watch.webhooks|)
    requires n == |Recipients(j)| && (s.ctl.pc.next < n ==> inputs(clock).sent)
    ensures Moves(j, s, inputs(clock)).cell == s.cell
    ensures OnTrack(Moves(j, s, inputs(clock)).ctl.pc, inputs, clock + 1, last, body, diff, n, |j.watch.webhooks|)
  {
    MailMoves(j, s, inputs(clock));
    assert AreAnswers(inputs, 5 + n, []);
  }

  lemma HookOnTrack(j: Job, s: State, inputs: nat -> Input, clock: nat, last: Text, body: Text, diff: Diff.Diff, n: nat)
    requires s.ctl.pc.Hooking? && OnTrack(s.ctl.pc, inputs, clock, last, body, diff, n, |j.watch.webhooks|)
    ensures Moves(j, s, inputs(clock)).cell == s.cell
    ensures OnTrack(Moves(j, s, inputs(clock)).ctl.pc, inputs, clock + 1, last, body, diff, n, |j.watch.webhooks|)
  {
    HookMoves(j, s, inputs(clock));
    if |s.ctl.pc.results| < |j.watch.webhooks| {
      OneMoreAnswer(inputs, 5 + n, s.ctl.pc.results, inputs(clock).reply.hookOk);
    }
  }

  /** The log is the announcement with these answers, the commit, and what Ends says. */
  ghost predicate Told(j: Job, log: seq<Event>, inputs: nat -> Input, last: Text, body: Text, diff: Diff.Diff, n: nat,
                       oks: seq<bool>)
  {
    && |oks| == |j.watch.webhooks| && AreAnswers(inputs, 5 + n, oks)
    && Ends(log, Announcement(j, last, body, diff, oks) + [Committed(last, body)], oks)
  }

  lemma AnnouncedSoFar(j: Job, s: State, last: Text, body: Text, diff: Diff.Diff, oks: seq<bool>)
    requires !j.dryRun && Inv(j, s) && s.ctl.pc == Updating(last, body, Some(diff), oks)
    ensures |oks| == |j.watch.webhooks| && s.ctl.run == Announcement(j, last, body, diff, oks)
  {
  }

  lemma UpdateLogs(j: Job, s: State, inputs: nat -> Input, clock: nat, told: seq<Event>)
    requires s.ctl.pc.Updating? && s.cell.Some? && s.ctl.run == told && !inputs(clock).reply.dbFault
    ensures Ends(Finish(j, s, inputs, clock).ctl.run, told + [Committed(s.ctl.pc.last, s.ctl.pc.body)],
                 s.ctl.pc.results)
  {
    FinishStep(j, s, inputs, clock);
    UpdateMoves(j, s, inputs(clock));
    FinishGrows(j, Moves(j, s, inputs(clock)), inputs, clock + 1);
  }

  /** From the update on: the commit, and a failure if a webhook failed. */
  lemma UpdateTells(j: Job, s: State, inputs: nat -> Input, clock: nat, last: Text, body: Text, diff: Diff.Diff, n: nat,
                    oks: seq<bool>)
    requires !j.dryRun && Inv(j, s) && s.ctl.pc == Updating(last, body, Some(diff), oks) && s.cell == Some(last)
    requires AreAnswers(inputs, 5 + n, oks) && !inputs(clock).reply.dbFault
    ensures Told(j, Finish(j, s, inputs, clock).ctl.run, inputs, last, body, diff, n, oks)
  {
    AnnouncedSoFar(j, s, last, body, diff, oks);
    UpdateLogs(j, s, inputs, clock, s.ctl.run);
  }

  lemma TrackGoesOn(j: Job, s: State, inputs: nat -> Input, clock: nat, last: Text, body: Text, diff: Diff.Diff, n: nat)
    requires s.ctl.pc.Mailing? || s.ctl.pc.Hooking?
    requires OnTrack(s.ctl.pc, inputs, clock, last, body, diff, n, |j.watch.webhooks|)
    requires n == |Recipients(j)| && AllSent(inputs, 4, n)
    ensures var next := Moves(j, s, inputs(clock));
            && next.cell == s.cell && Rank(j, next.ctl.pc) < Rank(j, s.ctl.pc)
            && OnTrack(next.ctl.pc, inputs, clock + 1, last, body, diff, n, |j.watch.webhooks|)
            && Finish(j, s, inputs, clock) == Finish(j, next, inputs, clock + 1)
  {
    if s.ctl.pc.Mailing? {
      MailOnTrack(j, s, inputs, clock, last, body, diff, n);
    } else {
      HookOnTrack(j, s, inputs, clock, last, body, diff, n);
    }
    FinishStep(j, s, inputs, clock);
    RankDrops(j, s.ctl.pc, ServeCell(s.cell, RequestAt(s.ctl.pc), inputs(clock).reply.dbFault).0, inputs(clock));
  }

  /** Where the run is fine, it has reached its goal at the end, or is fine after one more step. */
  ghost predicate Leads(j: Job, inputs: nat -> Input, fine: (State, nat) -> bool, goal: State -> bool, s: State,
                        clock: nat)
  {
    fine(s, clock) ==>
      || goal(Finish(j, s, inputs, clock))
      || (!s.ctl.pc.Idle? && fine(Moves(j, s, inputs(clock)), clock + 1))
  }

  lemma {:induction false} FinishReaches(j: Job, s: State, inputs: nat -> Input, clock: nat,
                                         fine: (State, nat) -> bool, goal: State -> bool)
    requires forall s, clock {:trigger Leads(j, inputs, fine, goal, s, clock)} ::
               Leads(j, inputs, fine, goal, s, clock)
    requires fine(s, clock)
    ensures goal(Finish(j, s, inputs, clock))
    decreases Rank(j, s.ctl.pc)
  {
    assert Leads(j, inputs, fine, goal, s, clock);
    if !goal(Finish(j, s, inputs, clock)) {
      FinishStep(j, s, inputs, clock);
      RankDrops(j, s.ctl.pc, ServeCell(s.cell, RequestAt(s.ctl.pc), inputs(clock).reply.dbFault).0, inputs(clock));
      FinishReaches(j, Moves(j, s, inputs(clock)), inputs, clock + 1, fine, goal);
    }
  }

  /** The run is on track, with everything that holds on the way. */
  ghost predicate Fine(j: Job, inputs: nat -> Input, last: Text, body: Text, diff: Diff.Diff, n: nat, s: State,
                       clock: nat)
  {
    Inv(j, s) && s.cell == Some(last) && OnTrack(s.ctl.pc, inputs, clock, last, body, diff, n, |j.watch.webhooks|)
  }

  ghost predicate HasTold(j: Job, s: State, inputs: nat -> Input, last: Text, body: Text, diff: Diff.Diff, n: nat) {
    exists oks :: Told(j, s.ctl.run, inputs, last, body, diff, n, oks)
  }

  lemma FineLeads(j: Job, inputs: nat -> Input, last: Text, body: Text, diff: Diff.Diff, n: nat, s: State, clock: nat)
    requires !j.dryRun && n == |Recipients(j)| && AllSent(inputs, 4, n)
    requires !inputs(6 + n + |j.watch.webhooks|).reply.dbFault && Fine(j, inputs, last, body, diff, n, s, clock)
    ensures || HasTold(j, Finish(j, s, inputs, clock), inputs, last, body, diff, n)
            || (!s.ctl.pc.Idle? && Fine(j, inputs, last, body, diff, n, Moves(j, s, inputs(clock)), clock + 1))
  {
    if s.ctl.pc.Updating? {
      UpdateTells(j, s, inputs, clock, last, body, diff, n, s.ctl.pc.results);
    } else {
      TrackGoesOn(j, s, inputs, clock, last, body, diff, n);
      MovesKeepsInv(j, s, inputs(clock));
    }
  }

  lemma FineTells(j: Job, s: State, inputs: nat -> Input, last: Text, body: Text, diff: Diff.Diff, n: nat)
    returns (oks: seq<bool>)
    requires !j.dryRun && n == |Recipients(j)| && AllSent(inputs, 4, n)
    requires !inputs(6 + n + |j.watch.webhooks|).reply.dbFault && Fine(j, inputs, last, body, diff, n, s, 4)
    ensures Told(j, Finish(j, s, inputs, 4).ctl.run, inputs, last, body, diff, n, oks)
  {
    var fine := (s: State, clock: nat) => Fine(j, inputs, last, body, diff, n, s, clock);
    var goal := (s: State) => HasTold(j, s, inputs, last, body, diff, n);
    forall s: State, clock: nat ensures Leads(j, inputs, fine, goal, s, clock) {
      if fine(s, clock) {
        FineLeads(j, inputs, last, body, diff, n, s, clock);
      }
    }
    FinishReaches(j, s, inputs, 4, fine, goal);
    oks :| Told(j, Finish(j, s, inputs, 4).ctl.run, inputs, last, body, diff, n, oks);
  }

  lemma StoredTold(j: Job, s: State, inputs: nat -> Input, last: Text, fetched: Response, diff: Diff.Diff, n: nat)
    returns (oks: seq<bool>)
    requires !j.dryRun && s.ctl.pc.Idle? && s.cell == Some(last) && inputs(0).reply.fetched == Ok(fetched)
    requires fetched.body != last && !inputs(1).reply.dbFault
    requires DiffNow(inputs(2).reply, last, fetched.body) == Some(diff)
    requires (j.dumpDiffHTML ==> inputs(2).reply.dumped) && inputs(3).reply.mailer && inputs(3).reply.rendered
    requires n == |Recipients(j)| && AllSent(inputs, 4, n) && !inputs(6 + n + |j.watch.webhooks|).reply.dbFault
    ensures Told(j, RunOnce(j, s, inputs).ctl.run, inputs, last, fetched.body, diff, n, oks)
  {
    var s1 := ChangeComposed(j, s, inputs, last, fetched, diff);
    oks := FineTells(j, s1, inputs, last, fetched.body, diff, n);
  }

  lemma AnswersSpelled(inputs: nat -> Input, base: nat, oks: seq<bool>)
    requires AreAnswers(inputs, base, oks)
    ensures forall i | 0 <= i < |oks| :: oks[i] == inputs(base + i).reply.hookOk
  {
    forall i | 0 <= i < |oks| ensures oks[i] == inputs(base + i).reply.hookOk {
      assert IsAnswer(inputs, base, oks, i);
    }
  }

  /**
    A change that is mailed to everybody and stored: the log is the comparison, a mail
    to each recipient in order, a call of each webhook with its own answer, the commit,
    and, exactly if one of these answers is a failure, that failure and its mails.
   */
  lemma StoredLog(j: Job, s: State, inputs: nat -> Input, last: Text, fetched: Response, raw: Text, diff: Diff.Diff)
    returns (oks: seq<bool>)
    requires !j.dryRun && s.ctl.pc.Idle? && s.cell == Some(last) && inputs(0).reply.fetched == Ok(fetched)
    requires fetched.body != last && !inputs(1).reply.dbFault
    requires inputs(2).reply.git(last, fetched.body) == Some(raw) && Diff.Parsed(raw) == Some(diff)
    requires (j.dumpDiffHTML ==> inputs(2).reply.dumped) && inputs(3).reply.mailer && inputs(3).reply.rendered
    requires var n, hooks := |j.config.mail.to| + |j.watch.additionalTo|, |j.watch.webhooks|;
             (forall i | 4 <= i < 4 + n :: inputs(i).sent) && !inputs(6 + n + hooks).reply.dbFault
    ensures var n := |j.config.mail.to| + |j.watch.additionalTo|;
            forall i | 0 <= i < |oks| :: oks[i] == inputs(5 + n + i).reply.hookOk
    ensures |oks| == |j.watch.webhooks|
    ensures var log := RunOnce(j, s, inputs).ctl.run;
            var told := [Compared(last, fetched.body, diff)]
                        + Served(j.config.mail.to + j.watch.additionalTo, DiffMail(diff))
                        + Called(j.watch.webhooks, oks) + [Committed(last, fetched.body)];
            if false in oks then told + [Failed] <= log else log == told
  {
    var n := |j.config.mail.to| + |j.watch.additionalTo|;
    oks := StoredTold(j, s, inputs, last, fetched, diff, n);
    AnswersSpelled(inputs, 5 + n, oks);
  }
}
