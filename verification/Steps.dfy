/** Each step of a job, one by one. */
module Steps {
  import opened Basics
  import opened Config
  import opened Watch
  import opened Protocol

  lemma FetchMoves(j: Job, s: State, input: Input)
    requires s.ctl.pc.Idle?
    ensures var s' := Moves(j, s, input);
            s'.cell == s.cell && (s'.ctl.pc, s'.ctl.run) == AfterFetch(j, input.reply.fetched)
  {
  }

  lemma ReadMoves(j: Job, s: State, input: Input)
    requires s.ctl.pc.Reading?
    ensures var s', body := Moves(j, s, input), s.ctl.pc.body;
            && s'.cell == s.cell
            && if input.reply.dbFault then s'.ctl.pc == Fail(j) && s'.ctl.run == s.ctl.run + [Failed]
               else
                 && s'.ctl.run == s.ctl.run
                 && s'.ctl.pc == if s.cell == None then Inserting(body)
                                 else if s.cell == Some(body) then Updating(body, body, None, [])
                                 else Diffing(s.cell.value, body)
  {
    assert s.ctl.run + [] == s.ctl.run;
  }

  lemma InsertMoves(j: Job, s: State, input: Input)
    requires s.ctl.pc.Inserting? && s.cell == None
    ensures var s', body := Moves(j, s, input), s.ctl.pc.body;
            if input.reply.dbFault
            then s'.cell == None && s'.ctl.pc == Fail(j) && s'.ctl.run == s.ctl.run + [Failed]
            else s'.cell == Some(body) && s'.ctl.pc.Idle? && s'.ctl.run == s.ctl.run + [Inserted(body)]
  {
  }

  lemma DiffMoves(j: Job, s: State, input: Input)
    requires s.ctl.pc.Diffing?
    ensures var s', pc := Moves(j, s, input), s.ctl.pc;
            var d := DiffNow(input.reply, pc.last, pc.body);
            && s'.cell == s.cell
            && if d.None? || (j.dumpDiffHTML && !input.reply.dumped)
               then s'.ctl.pc == Fail(j) && s'.ctl.run == s.ctl.run + [Failed]
               else
                 && s'.ctl.run == s.ctl.run + [Compared(pc.last, pc.body, d.value)]
                 && s'.ctl.pc == if j.dryRun then Updating(pc.last, pc.body, d, [])
                                 else Composing(pc.last, pc.body, d.value)
  {
  }

  lemma ComposeMoves(j: Job, s: State, input: Input)
    requires s.ctl.pc.Composing?
    ensures var s', pc := Moves(j, s, input), s.ctl.pc;
            && s'.cell == s.cell
            && if input.reply.mailer && input.reply.rendered
               then s'.ctl.pc == Mailing(pc.last, pc.body, pc.diff, 0) && s'.ctl.run == s.ctl.run
               else s'.ctl.pc == Fail(j) && s'.ctl.run == s.ctl.run + [Failed]
  {
    assert s.ctl.run + [] == s.ctl.run;
  }

  lemma MailMoves(j: Job, s: State, input: Input)
    requires s.ctl.pc.Mailing? && s.ctl.pc.next <= |Recipients(j)|
    ensures var s', pc := Moves(j, s, input), s.ctl.pc;
            && s'.cell == s.cell
            && s'.ctl.pc == if pc.next == |Recipients(j)| then Hooking(pc.last, pc.body, pc.diff, [])
                            else if input.sent then Mailing(pc.last, pc.body, pc.diff, pc.next + 1)
                            else Fail(j)
  {
  }

  lemma HookMoves(j: Job, s: State, input: Input)
    requires s.ctl.pc.Hooking? && |s.ctl.pc.results| <= |j.watch.webhooks|
    ensures var s', pc, hooks := Moves(j, s, input), s.ctl.pc, j.watch.webhooks;
            && s'.cell == s.cell
            && if |pc.results| == |hooks|
               then s'.ctl.pc == Updating(pc.last, pc.body, Some(pc.diff), pc.results) && s'.ctl.run == s.ctl.run
               else s'.ctl.pc == Hooking(pc.last, pc.body, pc.diff, pc.results + [input.reply.hookOk])
                    && s'.ctl.run == s.ctl.run + [HookCalled(hooks[|pc.results|], input.reply.hookOk)]
  {
    assert s.ctl.run + [] == s.ctl.run;
  }

  lemma UpdateMoves(j: Job, s: State, input: Input)
    requires s.ctl.pc.Updating? && s.cell.Some?
    ensures var s', pc := Moves(j, s, input), s.ctl.pc;
            if input.reply.dbFault
            then s'.cell == s.cell && s'.ctl.pc == Fail(j) && s'.ctl.run == s.ctl.run + [Failed]
            else
              && s'.cell == Some(pc.body)
              && if false in pc.results
                 then s'.ctl.pc == Fail(j) && s'.ctl.run == s.ctl.run + [Committed(pc.last, pc.body)] + [Failed]
                 else s'.ctl.pc.Idle? && s'.ctl.run == s.ctl.run + [Committed(pc.last, pc.body)]
  {
  }

  lemma ComposeReportMoves(j: Job, s: State, input: Input)
    requires s.ctl.pc.ComposingReport?
    ensures var s' := Moves(j, s, input);
            && s'.cell == s.cell
            && if input.reply.mailer then s'.ctl.pc == Reporting(s.ctl.pc.invalid, 0) && s'.ctl.run == s.ctl.run
               else s'.ctl.pc == Fail(j) && s'.ctl.run == s.ctl.run + [Failed]
  {
    assert s.ctl.run + [] == s.ctl.run;
  }

  lemma ReportMoves(j: Job, s: State, input: Input)
    requires s.ctl.pc.Reporting? && s.ctl.pc.next < |Recipients(j)|
    ensures var s', pc := Moves(j, s, input), s.ctl.pc;
            if input.sent
            then s'.ctl.pc == Reporting(pc.invalid, pc.next + 1)
                 && s'.ctl.run == s.ctl.run + [Delivered(Recipients(j)[pc.next], InvalidMail(pc.invalid))]
            else s'.ctl.pc == Fail(j) && s'.ctl.run == s.ctl.run + [Failed]
  {
  }

  lemma AlarmMoves(j: Job, s: State, input: Input)
    requires s.ctl.pc.Alarming? && s.ctl.pc.next < |j.config.mail.to|
    ensures var s', next := Moves(j, s, input), s.ctl.pc.next;
            if input.sent
            then s'.ctl.pc == Alarming(next + 1)
                 && s'.ctl.run == s.ctl.run + [Delivered(j.config.mail.to[next], ErrorMail)]
            else s'.ctl.pc.Idle? && s'.ctl.run == s.ctl.run
  {
    assert s.ctl.run + [] == s.ctl.run;
  }

  lemma ComposeErrorMoves(j: Job, s: State, input: Input)
    requires s.ctl.pc.ComposingError?
    ensures var s' := Moves(j, s, input);
            && s'.cell == s.cell && s'.ctl.run == s.ctl.run
            && s'.ctl.pc == if input.reply.mailer then Alarming(0) else Idle
  {
    assert s.ctl.run + [] == s.ctl.run;
  }
}
