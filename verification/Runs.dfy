/** What holds over every history of one watch's job. */
module Runs {
  import opened Basics
  import opened Config
  import opened Watch
  import opened Protocol
  import Diff

  lemma StepKeepsInv(j: Job, s: State, reply: Reply)
    requires Inv(j, s)
    ensures Inv(j, Step(j, s, reply))
  {
    MovesKeepsInv(j, s, Heard(j, reply));
  }

  /** Whatever the network, the database and the servers answer, the job's log is one of those of Inv. */
  lemma {:induction false} RunKeepsInv(j: Job, s: State, replies: seq<Reply>)
    requires Inv(j, s)
    ensures Inv(j, Run(j, s, replies))
  {
    if replies != [] {
      RunKeepsInv(j, s, replies[..|replies| - 1]);
      StepKeepsInv(j, Run(j, s, replies[..|replies| - 1]), replies[|replies| - 1]);
    }
  }

  lemma RunSnoc(j: Job, s: State, replies: seq<Reply>, last: Reply)
    ensures Run(j, s, replies + [last]) == Step(j, Run(j, s, replies), last)
  {
    assert (replies + [last])[..|replies|] == replies;
  }

  /** The states that some history leads to, from any content of the row or none. */
  ghost predicate Reachable(j: Job, s: State)
  {
    exists cell, replies :: s == Run(j, Fresh(cell), replies)
  }

  lemma FreshReachable(j: Job, cell: Option<Text>)
    ensures Reachable(j, Fresh(cell))
  {
    assert Fresh(cell) == Run(j, Fresh(cell), []);
  }

  lemma ReachableInv(j: Job, s: State)
    requires Reachable(j, s)
    ensures Inv(j, s)
  {
    var cell, replies :| s == Run(j, Fresh(cell), replies);
    RunKeepsInv(j, Fresh(cell), replies);
  }

  // ---- mail before commit ----

  /** This step stores a new content, after a complete announcement of exactly this change. */
  ghost predicate ChangeAnnounced(j: Job, s: State, s': State) {
    && s.cell.Some? && s'.cell.Some?
    && exists d, results | |results| == |j.watch.webhooks| ::
         && s.ctl.run == Announcement(j, s.cell.value, s'.cell.value, d, results)
         && s'.ctl.run == s.ctl.run + [Committed(s.cell.value, s'.cell.value)]
                          + (if false in results then [Failed] else [])
  }

  lemma CommitStep(j: Job, s: State, input: Input)
    requires Inv(j, s) && !j.dryRun && s.cell.Some?
    requires Moves(j, s, input).cell != s.cell
    ensures ChangeAnnounced(j, s, Moves(j, s, input))
  {
    var pc := s.ctl.pc;
    assert pc.Updating? && pc.shown.Some?;
    var d, results := pc.shown.value, pc.results;
    assert s.ctl.run == Announcement(j, s.cell.value, pc.body, d, results);
  }

  /**
    A stored content is replaced by a different one only if, in that same run,
    everybody was mailed the diff of exactly these two contents, and each webhook
    was called once, in order, whatever the webhooks answered.
   */
  lemma CommitAnnounced(j: Job, s: State, reply: Reply)
    requires !j.dryRun && Reachable(j, s)
    requires s.cell.Some? && Step(j, s, reply).cell != s.cell
    ensures ChangeAnnounced(j, s, Step(j, s, reply))
  {
    ReachableInv(j, s);
    CommitStep(j, s, Heard(j, reply));
  }

  /** The same, entry by entry. */
  lemma CommitTold(j: Job, s: State, reply: Reply) returns (diff: Diff.Diff, results: seq<bool>)
    requires !j.dryRun && Reachable(j, s)
    requires s.cell.Some? && Step(j, s, reply).cell != s.cell
    ensures var log, to, more, hooks := s.ctl.run, j.config.mail.to, j.watch.additionalTo, j.watch.webhooks;
            && Step(j, s, reply).cell.Some?
            && |results| == |hooks| && |log| == 1 + |to| + |more| + |hooks|
            && log[0] == Compared(s.cell.value, Step(j, s, reply).cell.value, diff)
            && (forall i | 0 <= i < |to| :: log[1 + i] == Delivered(to[i], DiffMail(diff)))
            && (forall i | 0 <= i < |more| :: log[1 + |to| + i] == Delivered(more[i], DiffMail(diff)))
            && (forall i | 0 <= i < |hooks| :: log[1 + |to| + |more| + i] == HookCalled(hooks[i], results[i]))
  {
    CommitAnnounced(j, s, reply);
    var s' := Step(j, s, reply);
    diff, results :| |results| == |j.watch.webhooks|
      && s.ctl.run == Announcement(j, s.cell.value, s'.cell.value, diff, results);
    AnnouncementSpelled(j, s.cell.value, s'.cell.value, diff, results);
  }

  ghost predicate EndsWith(log: seq<Event>, tail: seq<Event>) {
    |tail| <= |log| && log[|log| - |tail|..] == tail
  }

  /** If entry i stores a new content, the complete announcement of this change comes directly before it. */
  ghost predicate AnnouncedBefore(j: Job, log: seq<Event>, i: nat)
    requires i < |log|
  {
    log[i].Committed? && log[i].from != log[i].content ==>
      exists d, results | |results| == |j.watch.webhooks| ::
        EndsWith(log[..i], Announcement(j, log[i].from, log[i].content, d, results))
  }

  lemma AnnouncedStill(j: Job, log: seq<Event>, longer: seq<Event>, i: nat)
    requires i < |log| && log <= longer && AnnouncedBefore(j, log, i)
    ensures AnnouncedBefore(j, longer, i)
  {
    assert longer[..i] == log[..i];
  }

  lemma EndsWithMore(log: seq<Event>, tail: seq<Event>, more: seq<Event>)
    requires EndsWith(log, tail)
    ensures EndsWith(log + more, tail + more) && EndsWith(log + more, more)
  {
  }

  lemma StepEndsWithRun(j: Job, s: State, input: Input)
    requires EndsWith(s.ctl.trace, s.ctl.run)
    ensures EndsWith(Moves(j, s, input).ctl.trace, Moves(j, s, input).ctl.run)
  {
    var answer := ServeCell(s.cell, RequestAt(s.ctl.pc), input.reply.dbFault).0;
    EndsWithMore(s.ctl.trace, s.ctl.run, Next(j, s.ctl.pc, answer, input).1);
  }

  /** The log of all runs ends with that of the current one. */
  lemma {:induction false} TraceEndsWithRun(j: Job, cell: Option<Text>, replies: seq<Reply>)
    ensures var s := Run(j, Fresh(cell), replies); EndsWith(s.ctl.trace, s.ctl.run)
  {
    if replies != [] {
      var init, last := replies[..|replies| - 1], replies[|replies| - 1];
      TraceEndsWithRun(j, cell, init);
      StepEndsWithRun(j, Run(j, Fresh(cell), init), Heard(j, last));
    }
  }

  /** Only an update can log a commit. */
  lemma CommitNeedsUpdate(j: Job, pc: Pc, answer: Outcome, input: Input)
    requires !pc.Updating?
    ensures forall e | e in Next(j, pc, answer, input).1 :: !e.Committed?
  {
  }

  lemma UpdateAnnounced(j: Job, s: State, log: seq<Event>, answer: Outcome, i: nat)
    requires !j.dryRun && Inv(j, s) && EndsWith(s.ctl.trace, s.ctl.run) && s.ctl.pc.Updating?
    requires log == s.ctl.trace + AfterUpdate(j, s.ctl.pc.last, s.ctl.pc.body, s.ctl.pc.results, answer).1
    requires |s.ctl.trace| <= i < |log|
    ensures AnnouncedBefore(j, log, i)
  {
    var pc := s.ctl.pc;
    if log[i].Committed? && pc.last != pc.body {
      assert log[..i] == s.ctl.trace;
      assert s.ctl.run == Announcement(j, pc.last, pc.body, pc.shown.value, pc.results);
    }
  }

  lemma OtherAnnounced(j: Job, trace: seq<Event>, pc: Pc, answer: Outcome, input: Input, i: nat)
    requires !pc.Updating? && |trace| <= i < |trace + Next(j, pc, answer, input).1|
    ensures AnnouncedBefore(j, trace + Next(j, pc, answer, input).1, i)
  {
    CommitNeedsUpdate(j, pc, answer, input);
    assert (trace + Next(j, pc, answer, input).1)[i] in Next(j, pc, answer, input).1;
  }

  lemma StepAnnounced(j: Job, s: State, input: Input, i: nat)
    requires !j.dryRun && Inv(j, s) && EndsWith(s.ctl.trace, s.ctl.run)
    requires |s.ctl.trace| <= i < |Moves(j, s, input).ctl.trace|
    ensures AnnouncedBefore(j, Moves(j, s, input).ctl.trace, i)
  {
    var answer := ServeCell(s.cell, RequestAt(s.ctl.pc), input.reply.dbFault).0;
    if s.ctl.pc.Updating? {
      UpdateAnnounced(j, s, Moves(j, s, input).ctl.trace, answer, i);
    } else {
      OtherAnnounced(j, s.ctl.trace, s.ctl.pc, answer, input, i);
    }
  }

  lemma TraceGrows(j: Job, s: State, input: Input)
    ensures s.ctl.trace <= Moves(j, s, input).ctl.trace
  {
  }

  /**
    Outside dry-run mode, over every history: each commit of a changed content comes
    directly after the complete announcement of exactly this change.
   */
  lemma {:induction false} CommitsAnnounced(j: Job, cell: Option<Text>, replies: seq<Reply>, i: nat)
    requires !j.dryRun && i < |Run(j, Fresh(cell), replies).ctl.trace|
    ensures AnnouncedBefore(j, Run(j, Fresh(cell), replies).ctl.trace, i)
  {
    assert replies != [];
    var init, last := replies[..|replies| - 1], replies[|replies| - 1];
    var s := Run(j, Fresh(cell), init);
    TraceGrows(j, s, Heard(j, last));
    if i < |s.ctl.trace| {
      CommitsAnnounced(j, cell, init, i);
      AnnouncedStill(j, s.ctl.trace, Step(j, s, last).ctl.trace, i);
    } else {
      RunKeepsInv(j, Fresh(cell), init);
      TraceEndsWithRun(j, cell, init);
      StepAnnounced(j, s, Heard(j, last), i);
    }
  }

  // ---- the log tells what happened ----

  /** Whom the step at pc is about to mail what. */
  function NextMail(j: Job, pc: Pc): Option<(string, Notice)> {
    match pc
    case Mailing(_, _, diff, next) =>
      if next < |Recipients(j)| then Some((Recipients(j)[next], DiffMail(diff))) else None
    case Reporting(invalid, next) =>
      if next < |Recipients(j)| then Some((Recipients(j)[next], InvalidMail(invalid))) else None
    case Alarming(next) =>
      if next < |j.config.mail.to| then Some((j.config.mail.to[next], ErrorMail)) else None
    case _ => None
  }

  /** What makes the step at pc fail. */
  predicate Fails(j: Job, pc: Pc, reply: Reply) {
    match pc
    case Idle => reply.fetched.Err? && !reply.fetched.error.Rejected? && reply.fetched.error != Transport(true)
    case Reading(_) => reply.dbFault
    case Inserting(_) => reply.dbFault
    case Diffing(last, body) => DiffNow(reply, last, body).None? || (j.dumpDiffHTML && !reply.dumped)
    case Composing(_, _, _) => !reply.mailer || !reply.rendered
    case Mailing(_, _, _, _) => !Sends(j, reply)
    case Updating(_, _, _, results) => reply.dbFault || false in results
    case ComposingReport(_) => !reply.mailer
    case Reporting(_, _) => !Sends(j, reply)
    case _ => false
  }

  /** The step at pc does what the event says, and this reply made it succeed. */
  predicate Backs(j: Job, pc: Pc, reply: Reply, e: Event) {
    match e
    case Compared(last, body, diff) => pc == Diffing(last, body) && DiffNow(reply, last, body) == Some(diff)
    case Delivered(to, notice) => NextMail(j, pc) == Some((to, notice)) && Sends(j, reply)
    case HookCalled(hook, ok) =>
      && pc.Hooking? && |pc.results| < |j.watch.webhooks|
      && hook == j.watch.webhooks[|pc.results|] && ok == reply.hookOk
    case Inserted(content) => pc == Inserting(content) && !reply.dbFault
    case Committed(from, content) => pc.Updating? && pc.last == from && pc.body == content && !reply.dbFault
    case Failed => Fails(j, pc, reply)
  }

  /** Entry k of `after` is the event that step, from s on this reply, has added. */
  ghost predicate Adds(j: Job, s: State, reply: Reply, after: seq<Event>, k: nat) {
    && |s.ctl.trace| <= k < |after|
    && Backs(j, s.ctl.pc, reply, after[k])
    && (!after[k].Failed? ==> k == |s.ctl.trace|)
  }

  /** Entry k of the log was added by one of the steps, the one whose reply is the i-th. */
  ghost predicate BackedAt(j: Job, s: State, replies: seq<Reply>, k: nat, i: nat)
    requires i < |replies|
  {
    var before, after := Run(j, s, replies[..i]), Run(j, s, replies[..i + 1]);
    && Adds(j, before, replies[i], after.ctl.trace, k)
    && after.ctl.trace <= Run(j, s, replies).ctl.trace
  }

  lemma MailAdds(j: Job, s: State, input: Input, k: nat)
    requires s.ctl.pc.Mailing? || s.ctl.pc.Reporting? || s.ctl.pc.Alarming?
    requires input.sent == Sends(j, input.reply)
    requires |s.ctl.trace| <= k < |Moves(j, s, input).ctl.trace|
    ensures Adds(j, s, input.reply, Moves(j, s, input).ctl.trace, k)
  {
  }

  lemma OtherAdds(j: Job, s: State, input: Input, k: nat)
    requires s.ctl.pc.Idle? || s.ctl.pc.Reading? || s.ctl.pc.Diffing? || s.ctl.pc.Composing? || s.ctl.pc.Hooking?
          || s.ctl.pc.ComposingReport? || s.ctl.pc.ComposingError?
    requires |s.ctl.trace| <= k < |Moves(j, s, input).ctl.trace|
    ensures Adds(j, s, input.reply, Moves(j, s, input).ctl.trace, k)
  {
  }

  lemma WriteAdds(j: Job, s: State, input: Input, k: nat)
    requires Inv(j, s) && (s.ctl.pc.Updating? || s.ctl.pc.Inserting?)
    requires |s.ctl.trace| <= k < |Moves(j, s, input).ctl.trace|
    ensures Adds(j, s, input.reply, Moves(j, s, input).ctl.trace, k)
  {
  }

  lemma StepAdds(j: Job, s: State, input: Input, k: nat)
    requires Inv(j, s) && input == Heard(j, input.reply)
    requires |s.ctl.trace| <= k < |Moves(j, s, input).ctl.trace|
    ensures Adds(j, s, input.reply, Moves(j, s, input).ctl.trace, k)
  {
    if s.ctl.pc.Updating? || s.ctl.pc.Inserting? {
      WriteAdds(j, s, input, k);
    } else if s.ctl.pc.Mailing? || s.ctl.pc.Reporting? || s.ctl.pc.Alarming? {
      MailAdds(j, s, input, k);
    } else {
      OtherAdds(j, s, input, k);
    }
  }

  lemma BackedEarlier(j: Job, s: State, init: seq<Reply>, last: Reply, k: nat, i: nat)
    requires i < |init| && BackedAt(j, s, init, k, i)
    requires Run(j, s, init).ctl.trace <= Run(j, s, init + [last]).ctl.trace
    ensures BackedAt(j, s, init + [last], k, i)
  {
    var all := init + [last];
    assert init[..i] == all[..i] && init[..i + 1] == all[..i + 1];
  }

  lemma BackedLast(j: Job, s: State, init: seq<Reply>, last: Reply, k: nat)
    requires Inv(j, Run(j, s, init))
    requires |Run(j, s, init).ctl.trace| <= k < |Run(j, s, init + [last]).ctl.trace|
    ensures BackedAt(j, s, init + [last], k, |init|)
  {
    var all := init + [last];
    RunSnoc(j, s, init, last);
    StepAdds(j, Run(j, s, init), Heard(j, last), k);
    assert all[..|init|] == init && all[..|init| + 1] == all;
  }

  lemma RunGrows(j: Job, s: State, init: seq<Reply>, last: Reply)
    ensures Run(j, s, init).ctl.trace <= Run(j, s, init + [last]).ctl.trace
  {
    RunSnoc(j, s, init, last);
    TraceGrows(j, Run(j, s, init), Heard(j, last));
  }

  ghost predicate IsBacked(j: Job, s: State, replies: seq<Reply>, k: nat) {
    exists i | 0 <= i < |replies| :: BackedAt(j, s, replies, k, i)
  }

  lemma BackedStill(j: Job, s: State, init: seq<Reply>, last: Reply, k: nat)
    requires IsBacked(j, s, init, k)
    ensures IsBacked(j, s, init + [last], k)
  {
    var i :| 0 <= i < |init| && BackedAt(j, s, init, k, i);
    RunGrows(j, s, init, last);
    BackedEarlier(j, s, init, last, k, i);
  }

  lemma BackedAtLast(j: Job, s: State, init: seq<Reply>, last: Reply, k: nat)
    requires Inv(j, s)
    requires |Run(j, s, init).ctl.trace| <= k < |Run(j, s, init + [last]).ctl.trace|
    ensures IsBacked(j, s, init + [last], k)
  {
    RunKeepsInv(j, s, init);
    BackedLast(j, s, init, last, k);
  }

  /**
    The log tells what happened: each entry was added by one step, whose position
    says what was to be done for whom and whose own reply made it succeed.
   */
  lemma {:induction false} LogIsBacked(j: Job, s: State, replies: seq<Reply>, k: nat)
    requires Inv(j, s) && |s.ctl.trace| <= k < |Run(j, s, replies).ctl.trace|
    ensures IsBacked(j, s, replies, k)
    decreases |replies|
  {
    assert replies != [];
    var init, last := replies[..|replies| - 1], replies[|replies| - 1];
    assert replies == init + [last];
    if k < |Run(j, s, init).ctl.trace| {
      LogIsBacked(j, s, init, k);
      BackedStill(j, s, init, last, k);
    } else {
      BackedAtLast(j, s, init, last, k);
    }
  }

  /** Two entries never share a step, so no accepted mail or successful write counts twice. */
  lemma OneEntryEach(j: Job, s: State, replies: seq<Reply>, k: nat, k': nat, i: nat)
    requires i < |replies| && BackedAt(j, s, replies, k, i) && BackedAt(j, s, replies, k', i)
    requires !Run(j, s, replies).ctl.trace[k].Failed? && !Run(j, s, replies).ctl.trace[k'].Failed?
    ensures k == k'
  {
  }

  // ---- the chain of contents ----

  /** Each event that changes the content starts from the one before; the last one is the row. */
  ghost predicate Explains(before: Option<Text>, trace: seq<Event>, after: Option<Text>) {
    if trace == [] then before == after
    else
      var rest, last := trace[..|trace| - 1], trace[|trace| - 1];
      match last
      case Inserted(content) => after == Some(content) && Explains(before, rest, None)
      case Committed(from, content) => after == Some(content) && Explains(before, rest, Some(from))
      case _ => Explains(before, rest, after)
  }

  /** What one event does to the content. */
  ghost predicate Effect(mid: Option<Text>, e: Event, after: Option<Text>) {
    match e
    case Inserted(content) => mid == None && after == Some(content)
    case Committed(from, content) => mid == Some(from) && after == Some(content)
    case _ => after == mid
  }

  lemma ExplainsOne(before: Option<Text>, trace: seq<Event>, mid: Option<Text>, e: Event, after: Option<Text>)
    requires Explains(before, trace, mid) && Effect(mid, e, after)
    ensures Explains(before, trace + [e], after)
  {
    assert (trace + [e])[..|trace|] == trace;
  }

  /** Steps that write nothing leave the content and log no write. */
  lemma OtherEvents(j: Job, pc: Pc, answer: Outcome, input: Input)
    requires !pc.Inserting? && !pc.Updating?
    ensures var events := Next(j, pc, answer, input).1;
            events == [] || (|events| == 1 && !events[0].Inserted? && !events[0].Committed?)
  {
  }

  lemma OtherStepEffect(j: Job, s: State, input: Input)
    requires !s.ctl.pc.Inserting? && !s.ctl.pc.Updating?
    ensures var s' := Moves(j, s, input);
            && s'.cell == s.cell
            && (s'.ctl.trace == s.ctl.trace
                || exists e :: s'.ctl.trace == s.ctl.trace + [e] && Effect(s.cell, e, s'.cell))
  {
    var s' := Moves(j, s, input);
    var answer := ServeCell(s.cell, RequestAt(s.ctl.pc), input.reply.dbFault).0;
    var events := Next(j, s.ctl.pc, answer, input).1;
    OtherEvents(j, s.ctl.pc, answer, input);
    if events == [] {
      assert s'.ctl.trace == s.ctl.trace;
    } else {
      assert events == [events[0]];
      assert s'.ctl.trace == s.ctl.trace + [events[0]] && Effect(s.cell, events[0], s'.cell);
    }
  }

  lemma WriteEffect(j: Job, s: State, input: Input)
    requires Inv(j, s) && (s.ctl.pc.Inserting? || s.ctl.pc.Updating?)
    ensures var s' := Moves(j, s, input);
            || (exists e :: s'.ctl.trace == s.ctl.trace + [e] && Effect(s.cell, e, s'.cell))
            || (exists e :: s'.ctl.trace == s.ctl.trace + [e] + [Failed] && Effect(s.cell, e, s'.cell))
  {
    var s' := Moves(j, s, input);
    var pc := s.ctl.pc;
    if input.reply.dbFault {
      assert s'.ctl.trace == s.ctl.trace + [Failed] && Effect(s.cell, Failed, s'.cell);
    } else if pc.Inserting? {
      assert s'.ctl.trace == s.ctl.trace + [Inserted(pc.body)];
    } else if false in pc.results {
      assert s'.ctl.trace == s.ctl.trace + [Committed(pc.last, pc.body)] + [Failed];
    } else {
      assert s'.ctl.trace == s.ctl.trace + [Committed(pc.last, pc.body)];
    }
  }

  lemma ExplainsStep(j: Job, s: State, input: Input,
                     before: Option<Text>)
    requires Inv(j, s) && Explains(before, s.ctl.trace, s.cell)
    ensures var s' := Moves(j, s, input);
            Explains(before, s'.ctl.trace, s'.cell)
  {
    var s' := Moves(j, s, input);
    if s.ctl.pc.Inserting? || s.ctl.pc.Updating? {
      WriteEffect(j, s, input);
    } else {
      OtherStepEffect(j, s, input);
    }
    if e :| s'.ctl.trace == s.ctl.trace + [e] && Effect(s.cell, e, s'.cell) {
      ExplainsOne(before, s.ctl.trace, s.cell, e, s'.cell);
    } else if e :| s'.ctl.trace == s.ctl.trace + [e] + [Failed] && Effect(s.cell, e, s'.cell) {
      ExplainsOne(before, s.ctl.trace, s.cell, e, s'.cell);
      ExplainsOne(before, s.ctl.trace + [e], s'.cell, Failed, s'.cell);
    }
  }

  lemma {:induction false} ChainGrows(j: Job, s: State, replies: seq<Reply>, before: Option<Text>)
    requires Inv(j, s) && Explains(before, s.ctl.trace, s.cell)
    ensures Explains(before, Run(j, s, replies).ctl.trace, Run(j, s, replies).cell)
  {
    if replies != [] {
      var n := |replies| - 1;
      ChainGrows(j, s, replies[..n], before);
      RunKeepsInv(j, s, replies[..n]);
      ExplainsStep(j, Run(j, s, replies[..n]), Heard(j, replies[n]), before);
    }
  }

  /**
    Over every history the contents form one chain: from the content at the start,
    or the first one stored, to the one in the row now, each commit starting where
    the previous one ended.
   */
  lemma HistoryExplains(j: Job, cell: Option<Text>, replies: seq<Reply>)
    ensures var s := Run(j, Fresh(cell), replies);
            Explains(cell, s.ctl.trace, s.cell)
  {
    ChainGrows(j, Fresh(cell), replies, cell);
  }

  ghost predicate ChangesContent(e: Event) {
    e.Inserted? || e.Committed?
  }

  lemma {:induction false} NothingStored(before: Option<Text>, trace: seq<Event>)
    requires Explains(before, trace, None)
    ensures before == None && forall k | 0 <= k < |trace| :: !ChangesContent(trace[k])
  {
    if trace != [] {
      NothingStored(before, trace[..|trace| - 1]);
    }
  }

  /** A baseline is stored at most once, before every commit, and only when there was no row. */
  lemma {:induction false} OneBaseline(before: Option<Text>, trace: seq<Event>, after: Option<Text>, i: nat)
    requires Explains(before, trace, after) && i < |trace| && trace[i].Inserted?
    ensures before == None && after.Some?
    ensures forall k | 0 <= k < i :: !ChangesContent(trace[k])
    decreases |trace|
  {
    var n := |trace| - 1;
    var rest := trace[..n];
    if i == n {
      NothingStored(before, rest);
    } else {
      assert rest[i] == trace[i];
      match trace[n] {
        case Inserted(_) => OneBaseline(before, rest, None, i);
        case Committed(from, _) => OneBaseline(before, rest, Some(from), i);
        case _ => OneBaseline(before, rest, after, i);
      }
    }
  }

  // ---- how a run ends ----

  lemma LogCommitsNothing(j: Job, pc: Pc)
    requires PcOk(j, pc)
    ensures forall e | e in LogAt(j, pc) :: !e.Inserted? && !e.Committed? && !e.Failed?
    ensures forall e | e in LogAt(j, pc) :: e.Delivered? ==> e.notice != ErrorMail
  {
  }

  lemma LogCompares(j: Job, pc: Pc)
    requires PcOk(j, pc)
    ensures forall last, body, d | Compared(last, body, d) in LogAt(j, pc) ::
              pc.last == last && pc.body == body && last != body
  {
  }

  /** Only a failing webhook makes a run fail that has stored something. */
  ghost predicate HookFailedAfterCommit(j: Job, start: Option<Text>, cell: Option<Text>, log: seq<Event>) {
    && start.Some? && cell.Some?
    && Committed(start.value, cell.value) in log
    && exists hook | hook in j.watch.webhooks :: HookCalled(hook, false) in log
  }

  lemma HookFailureLogged(j: Job, pc: Pc)
    requires pc.Updating? && PcOk(j, pc) && false in pc.results
    ensures exists hook | hook in j.watch.webhooks :: HookCalled(hook, false) in LogAt(j, pc)
  {
    var i :| 0 <= i < |pc.results| && !pc.results[i];
    assert Called(j.watch.webhooks, pc.results)[i] == HookCalled(j.watch.webhooks[i], false);
    assert HookCalled(j.watch.webhooks[i], false) in LogAt(j, pc);
  }

  lemma FailedThenHook(j: Job, start: Option<Text>, cell: Option<Text>, log: seq<Event>)
    requires FailedAfter(j, start, cell, log) && cell != start
    ensures HookFailedAfterCommit(j, start, cell, log)
  {
    var pc: Pc :| pc.Updating? && PcOk(j, pc) && Holds(pc, start) && false in pc.results
      && cell == Some(pc.body) && log == LogAt(j, pc) + [Committed(pc.last, pc.body)];
    HookFailureLogged(j, pc);
    var hook :| hook in j.watch.webhooks && HookCalled(hook, false) in LogAt(j, pc);
    assert HookCalled(hook, false) in log;
  }

  /** A run that ends with a failure in its log ended in the failing way. */
  lemma EndedInFailure(j: Job, s: State) returns (n: nat, k: nat)
    requires Inv(j, s) && s.ctl.pc.Idle? && Failed in s.ctl.run
    ensures n < |s.ctl.run| && k <= |j.config.mail.to|
    ensures s.ctl.run == s.ctl.run[..n] + [Failed] + Served(j.config.mail.to[..k], ErrorMail)
    ensures FailedAfter(j, s.ctl.start, s.cell, s.ctl.run[..n])
  {
    forall pc | PcOk(j, pc) ensures Failed !in LogAt(j, pc) {
      LogCommitsNothing(j, pc);
    }
    var run, to := s.ctl.run, j.config.mail.to;
    n, k :| 0 <= n < |run| && 0 <= k <= |to|
            && run == run[..n] + [Failed] + Served(to[..k], ErrorMail)
            && FailedAfter(j, s.ctl.start, s.cell, run[..n]);
  }

  lemma LogPrefix(j: Job, start: Option<Text>, cell: Option<Text>, run: seq<Event>, n: nat)
    requires n <= |run| && HookFailedAfterCommit(j, start, cell, run[..n])
    ensures HookFailedAfterCommit(j, start, cell, run)
  {
    var hook :| hook in j.watch.webhooks && HookCalled(hook, false) in run[..n];
    assert HookCalled(hook, false) in run;
  }

  /**
    A run that reports a failure leaves the content as it was, except after a
    complete announcement of which only a webhook failed.
   */
  lemma FailureKeepsContent(j: Job, s: State)
    requires Reachable(j, s) && s.ctl.pc.Idle? && Failed in s.ctl.run
    ensures s.cell == s.ctl.start || HookFailedAfterCommit(j, s.ctl.start, s.cell, s.ctl.run)
  {
    ReachableInv(j, s);
    if s.cell != s.ctl.start {
      var n, _ := EndedInFailure(j, s);
      FailedThenHook(j, s.ctl.start, s.cell, s.ctl.run[..n]);
      LogPrefix(j, s.ctl.start, s.cell, s.ctl.run, n);
    }
  }

  /** Every finished run is of one of the five kinds. */
  lemma RunEnds(j: Job, s: State)
    requires Reachable(j, s) && s.ctl.pc.Idle?
    ensures Ended(j, s.ctl.start, s.cell, s.ctl.run)
  {
    ReachableInv(j, s);
  }

  /** The whole announcement of this diff comes first in the log. */
  ghost predicate Announced(j: Job, last: Text, body: Text, d: Diff.Diff, run: seq<Event>) {
    exists results | |results| == |j.watch.webhooks| :: Announcement(j, last, body, d, results) <= run
  }

  lemma UpdatingLog(j: Job, pc: Pc, last: Text, body: Text, d: Diff.Diff, run: seq<Event>)
    requires pc.Updating? && PcOk(j, pc) && !j.dryRun
    requires Compared(last, body, d) in LogAt(j, pc) && LogAt(j, pc) <= run
    ensures pc.last == last && pc.body == body && Announced(j, last, body, d, run)
  {
    var log := Announcement(j, pc.last, pc.body, pc.shown.value, pc.results);
    assert LogAt(j, pc) == log;
    assert Compared(last, body, d) == log[0];
  }

  lemma ComparedThenFailed(j: Job, start: Option<Text>, cell: Option<Text>, log: seq<Event>,
                           last: Text, body: Text, d: Diff.Diff)
    requires !j.dryRun && FailedAfter(j, start, cell, log) && Compared(last, body, d) in log
    ensures start == Some(last) && last != body
    ensures cell == Some(last) || (cell == Some(body) && Announced(j, last, body, d, log))
  {
    if pc: Pc :| && pc.Updating? && PcOk(j, pc) && Holds(pc, start) && false in pc.results
                 && cell == Some(pc.body) && log == LogAt(j, pc) + [Committed(pc.last, pc.body)] {
      UpdatingLog(j, pc, last, body, d, log);
    } else {
      var pc :| Working(pc) && PcOk(j, pc) && Holds(pc, start) && log == LogAt(j, pc);
      LogCompares(j, pc);
    }
  }

  lemma ComparedThenDone(j: Job, s: State, last: Text, body: Text, d: Diff.Diff)
    requires Inv(j, s) && !j.dryRun && s.ctl.pc.Idle? && Failed !in s.ctl.run
    requires Compared(last, body, d) in s.ctl.run
    ensures s.ctl.start == Some(last) && s.cell == Some(body) && Announced(j, last, body, d, s.ctl.run)
  {
    var pc: Pc :| pc.Updating? && PcOk(j, pc) && Holds(pc, s.ctl.start) && s.cell == Some(pc.body)
      && s.ctl.run == LogAt(j, pc) + [Committed(pc.last, pc.body)];
    UpdatingLog(j, pc, last, body, d, s.ctl.run);
  }

  lemma ChangeKept(j: Job, s: State, last: Text, body: Text, d: Diff.Diff)
    requires Inv(j, s) && !j.dryRun && s.ctl.pc.Idle? && Failed in s.ctl.run
    requires Compared(last, body, d) in s.ctl.run
    ensures s.ctl.start == Some(last) && last != body
    ensures s.cell == Some(last) || (s.cell == Some(body) && Announced(j, last, body, d, s.ctl.run))
  {
    var n, k := EndedInFailure(j, s);
    var run := s.ctl.run;
    assert Compared(last, body, d) in run[..n];
    ComparedThenFailed(j, s.ctl.start, s.cell, run[..n], last, body, d);
    if s.cell == Some(body) {
      var results :| |results| == |j.watch.webhooks| && Announcement(j, last, body, d, results) <= run[..n];
      assert Announcement(j, last, body, d, results) <= run;
    }
  }

  /**
    No change is lost: once a run has compared two contents, it either announces
    the change to everybody and stores it, or it logs a failure and leaves the old
    content, so that the next run finds the change again.
   */
  lemma NoChangeLost(j: Job, s: State, last: Text, body: Text, d: Diff.Diff)
    requires !j.dryRun && Reachable(j, s) && s.ctl.pc.Idle?
    requires Compared(last, body, d) in s.ctl.run
    ensures s.ctl.start == Some(last)
    ensures || (s.cell == Some(last) && last != body && Failed in s.ctl.run)
            || (s.cell == Some(body) && Announced(j, last, body, d, s.ctl.run))
  {
    ReachableInv(j, s);
    if Failed in s.ctl.run {
      ChangeKept(j, s, last, body, d);
    } else {
      ComparedThenDone(j, s, last, body, d);
    }
  }

  // ---- who is mailed ----

  lemma NoErrorMailBefore(j: Job, start: Option<Text>, cell: Option<Text>, log: seq<Event>, to: string)
    requires FailedAfter(j, start, cell, log)
    ensures Delivered(to, ErrorMail) !in log
  {
    forall pc | PcOk(j, pc) ensures Delivered(to, ErrorMail) !in LogAt(j, pc) {
      LogCommitsNothing(j, pc);
    }
  }

  lemma ErrorMailTail(j: Job, run: seq<Event>, n: nat, k: nat, to: string)
    requires n <= |run| && k <= |j.config.mail.to|
    requires run == run[..n] + [Failed] + Served(j.config.mail.to[..k], ErrorMail)
    requires Delivered(to, ErrorMail) in run && Delivered(to, ErrorMail) !in run[..n]
    ensures to in j.config.mail.to
  {
    var served := Served(j.config.mail.to[..k], ErrorMail);
    assert Delivered(to, ErrorMail) in served;
    var i :| 0 <= i < |served| && served[i] == Delivered(to, ErrorMail);
    assert to == j.config.mail.to[i];
  }

  lemma WellEndedMails(j: Job, start: Option<Text>, cell: Option<Text>, run: seq<Event>, to: string)
    requires Ended(j, start, cell, run) && Failed !in run
    ensures Delivered(to, ErrorMail) !in run
  {
    forall pc | PcOk(j, pc) ensures Delivered(to, ErrorMail) !in LogAt(j, pc) {
      LogCommitsNothing(j, pc);
    }
  }

  lemma FailedRunMails(j: Job, start: Option<Text>, cell: Option<Text>, run: seq<Event>, n: nat, k: nat, to: string)
    requires n <= |run| && k <= |j.config.mail.to|
    requires run == run[..n] + [Failed] + Served(j.config.mail.to[..k], ErrorMail)
    requires FailedAfter(j, start, cell, run[..n]) && Delivered(to, ErrorMail) in run
    ensures to in j.config.mail.to
  {
    NoErrorMailBefore(j, start, cell, run[..n], to);
    ErrorMailTail(j, run, n, k, to);
  }

  lemma IdleErrorMails(j: Job, s: State, to: string)
    requires Inv(j, s) && s.ctl.pc.Idle? && Delivered(to, ErrorMail) in s.ctl.run
    ensures to in j.config.mail.to
  {
    if Failed !in s.ctl.run {
      WellEndedMails(j, s.ctl.start, s.cell, s.ctl.run, to);
    } else {
      var n, k := EndedInFailure(j, s);
      FailedRunMails(j, s.ctl.start, s.cell, s.ctl.run, n, k, to);
    }
  }

  lemma NoErrorMailsYet(j: Job, s: State, to: string)
    requires Inv(j, s) && !s.ctl.pc.Alarming? && !s.ctl.pc.Idle?
    ensures Delivered(to, ErrorMail) !in s.ctl.run
  {
    if s.ctl.pc.ComposingError? {
      NoErrorMailBefore(j, s.ctl.start, s.cell, s.ctl.run[..|s.ctl.run| - 1], to);
    } else {
      LogCommitsNothing(j, s.ctl.pc);
    }
  }

  lemma ErrorMailsAt(j: Job, s: State, to: string)
    requires Inv(j, s) && Delivered(to, ErrorMail) in s.ctl.run
    ensures to in j.config.mail.to
  {
    var start, run, pc := s.ctl.start, s.ctl.run, s.ctl.pc;
    if pc.Alarming? {
      FailedRunMails(j, start, s.cell, run, |run| - pc.next - 1, pc.next, to);
    } else if pc.Idle? {
      IdleErrorMails(j, s, to);
    } else {
      NoErrorMailsYet(j, s, to);
    }
  }

  /** Error mails go to Mail.To only; additional recipients get diffs and reports. */
  lemma ErrorMailsGoToMailTo(j: Job, s: State, to: string)
    requires Reachable(j, s) && Delivered(to, ErrorMail) in s.ctl.run
    ensures to in j.config.mail.to
  {
    ReachableInv(j, s);
    ErrorMailsAt(j, s, to);
  }

  // ---- the first run of a watch ----

  predicate TellsOfChange(e: Event) {
    e.Compared? || e.HookCalled? || e.Committed? || (e.Delivered? && e.notice.DiffMail?)
  }

  ghost predicate NoChangeTold(log: seq<Event>) {
    forall e | e in log :: !TellsOfChange(e)
  }

  lemma ServedTellNoChange(tos: seq<string>, notice: Notice)
    requires !notice.DiffMail?
    ensures NoChangeTold(Served(tos, notice))
  {
  }

  lemma NewWatchLog(j: Job, pc: Pc)
    requires PcOk(j, pc) && Holds(pc, None)
    ensures NoChangeTold(LogAt(j, pc))
  {
    if pc.Reporting? {
      ServedTellNoChange(Recipients(j)[..pc.next], InvalidMail(pc.invalid));
    }
  }

  lemma NewWatchFailed(j: Job, cell: Option<Text>, log: seq<Event>)
    requires FailedAfter(j, None, cell, log)
    ensures NoChangeTold(log)
  {
    if log != [] {
      var pc :| Working(pc) && PcOk(j, pc) && Holds(pc, None) && log == LogAt(j, pc);
      NewWatchLog(j, pc);
    }
  }

  lemma NewWatchAlarmed(j: Job, cell: Option<Text>, run: seq<Event>, n: nat, k: nat)
    requires n <= |run| && k <= |j.config.mail.to|
    requires run == run[..n] + [Failed] + Served(j.config.mail.to[..k], ErrorMail)
    requires FailedAfter(j, None, cell, run[..n])
    ensures NoChangeTold(run)
  {
    NewWatchFailed(j, cell, run[..n]);
    ServedTellNoChange(j.config.mail.to[..k], ErrorMail);
  }

  lemma NewWatchIdle(j: Job, s: State)
    requires Inv(j, s) && s.ctl.pc.Idle? && s.ctl.start == None
    ensures NoChangeTold(s.ctl.run)
  {
    if Failed in s.ctl.run {
      var n, k := EndedInFailure(j, s);
      NewWatchAlarmed(j, s.cell, s.ctl.run, n, k);
    } else if invalid :| s.ctl.run == Served(Recipients(j), InvalidMail(invalid)) {
      ServedTellNoChange(Recipients(j), InvalidMail(invalid));
    }
  }

  lemma NewWatchWorking(j: Job, s: State)
    requires Inv(j, s) && Working(s.ctl.pc) && s.ctl.start == None
    ensures NoChangeTold(s.ctl.run)
  {
    NewWatchLog(j, s.ctl.pc);
  }

  lemma NewWatchAlarms(j: Job, s: State)
    requires Inv(j, s) && (s.ctl.pc.Alarming? || s.ctl.pc.ComposingError?) && s.ctl.start == None
    ensures NoChangeTold(s.ctl.run)
  {
    var pc, run := s.ctl.pc, s.ctl.run;
    if pc.Alarming? {
      NewWatchAlarmed(j, s.cell, run, |run| - pc.next - 1, pc.next);
    } else {
      NewWatchFailed(j, s.cell, run[..|run| - 1]);
    }
  }

  /**
    A run that began without a row mails no diff, calls no webhook and compares
    nothing: at most it stores the baseline, reports or alarms.
   */
  lemma FirstRunTellsNoChange(j: Job, s: State)
    requires Reachable(j, s) && s.ctl.start == None
    ensures NoChangeTold(s.ctl.run)
  {
    ReachableInv(j, s);
    if s.ctl.pc.Idle? {
      NewWatchIdle(j, s);
    } else if Working(s.ctl.pc) {
      NewWatchWorking(j, s);
    } else {
      NewWatchAlarms(j, s);
    }
  }

  // ---- dry runs ----

  ghost predicate Silent(events: seq<Event>) {
    forall e | e in events :: !e.Delivered? && !e.HookCalled?
  }

  lemma DryStep(j: Job, s: State, input: Input)
    requires j.dryRun && Inv(j, s) && Silent(s.ctl.trace)
    ensures Silent(Moves(j, s, input).ctl.trace)
  {
  }

  /** A dry run mails nobody and calls no webhook, over any number of runs. */
  lemma {:induction false} DryRunIsSilent(j: Job, cell: Option<Text>, replies: seq<Reply>)
    requires j.dryRun
    ensures Silent(Run(j, Fresh(cell), replies).ctl.trace)
  {
    if replies != [] {
      var n := |replies| - 1;
      DryRunIsSilent(j, cell, replies[..n]);
      RunKeepsInv(j, Fresh(cell), replies[..n]);
      DryStep(j, Run(j, Fresh(cell), replies[..n]), Heard(j, replies[n]));
    }
  }
}
