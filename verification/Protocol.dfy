/** One watch's job as a state machine: fetch, compare, notify, then commit. */
module Protocol {
  import opened Basics
  import opened Config
  import opened Watch
  import Mail
  import Diff

  datatype Job = Job(
    config: Configuration,
    dryRun: bool,
    dumpDiffHTML: bool,
    libs: Libraries,
    watch: Watch)

  /**
    What the world answers to one step; a step uses only what it asked for.
    `fetched` is what Process returns, `git` the output of git for two texts.
   */
  datatype Reply = Reply(
    fetched: Result<Response, ProcessError>,
    dbFault: bool,
    git: (Text, Text) -> Option<Text>,
    dumped: bool,
    mailer: bool,
    rendered: bool,
    letter: Mail.Letter,
    hookOk: bool)

  datatype Notice = DiffMail(diff: Diff.Diff) | InvalidMail(invalid: Invalid) | ErrorMail

  datatype Event =
    | Compared(old_: Text, new_: Text, diff: Diff.Diff)
    | Delivered(to: string, notice: Notice)
    | HookCalled(hook: WebhookConfig, ok: bool)
    | Inserted(content: Text)
    | Committed(from: Text, content: Text)
    | Failed

  /**
    Where a job stands between two of its calls. `results` are the answers of the
    webhooks called so far.
   */
  datatype Pc =
    | Idle
    | Reading(body: Text)
    | Inserting(body: Text)
    | Diffing(last: Text, body: Text)
    | Composing(last: Text, body: Text, diff: Diff.Diff)
    | Mailing(last: Text, body: Text, diff: Diff.Diff, next: nat)
    | Hooking(last: Text, body: Text, diff: Diff.Diff, results: seq<bool>)
    | Updating(last: Text, body: Text, shown: Option<Diff.Diff>, results: seq<bool>)
    | ComposingReport(invalid: Invalid)
    | Reporting(invalid: Invalid, next: nat)
    | ComposingError
    | Alarming(next: nat)

  // ---- the database as a step sees it ----

  datatype Request = Quiet | Select | Insert(content: Text) | Update(content: Text)

  datatype Outcome = Nothing | DbFailed | NoRow | Found(content: Text) | Written

  function RequestAt(pc: Pc): Request {
    match pc
    case Reading(_) => Select
    case Inserting(body) => Insert(body)
    case Updating(_, body, _, _) => Update(body)
    case _ => Quiet
  }

  // ---- one step ----

  function Recipients(j: Job): seq<string> {
    j.config.mail.to + j.watch.additionalTo
  }

  predicate Ignored(j: Job, status: int) {
    status in j.config.noErrorMailOnStatusCode || status in j.watch.noErrorMailOnStatusCode
  }

  /** Every mail of the protocol has a text, so only addresses and server decide. */
  predicate Sends(j: Job, reply: Reply) {
    reply.letter.addressable && Mail.SendFrom(j.config.mail.retries, reply.letter, 1).Sent?
  }

  /** A reply, and whether it means that the mail of this step was sent. */
  datatype Input = Input(sent: bool, reply: Reply)

  function Heard(j: Job, reply: Reply): Input {
    Input(Sends(j, reply), reply)
  }

  /** The job logs the error and, unless in dry-run mode, mails it. */
  function Fail(j: Job): Pc {
    if j.dryRun then Idle else ComposingError
  }

  /** The diff of the two contents as git computes it now. */
  function DiffNow(reply: Reply, last: Text, body: Text): Option<Diff.Diff> {
    match reply.git(last, body)
    case None => None
    case Some(raw) => Diff.Parsed(raw)
  }

  function AfterFetch(j: Job, fetched: Result<Response, ProcessError>): (Pc, seq<Event>) {
    match fetched
    case Ok(r) => (Reading(r.body), [])
    case Err(Transport(true)) => (Idle, [])
    case Err(Rejected(invalid)) =>
      (if Ignored(j, invalid.status) || j.dryRun then Idle else ComposingReport(invalid), [])
    case Err(_) => (Fail(j), [Failed])
  }

  function AfterRead(j: Job, body: Text, answer: Outcome): (Pc, seq<Event>) {
    match answer
    case Found(last) => (if last == body then Updating(last, body, None, []) else Diffing(last, body), [])
    case NoRow => (Inserting(body), [])
    case _ => (Fail(j), [Failed])
  }

  function AfterDiff(j: Job, last: Text, body: Text, diff: Option<Diff.Diff>, dumped: bool): (Pc, seq<Event>) {
    if diff.None? || (j.dumpDiffHTML && !dumped) then (Fail(j), [Failed])
    else
      (if j.dryRun then Updating(last, body, diff, []) else Composing(last, body, diff.value),
       [Compared(last, body, diff.value)])
  }

  /** A failing webhook is reported only after the new content is stored. */
  function AfterUpdate(j: Job, last: Text, body: Text, results: seq<bool>, answer: Outcome): (Pc, seq<Event>) {
    if answer != Written then (Fail(j), [Failed])
    else if false in results then (Fail(j), [Committed(last, body), Failed])
    else (Idle, [Committed(last, body)])
  }

  /** One mail of a list: the next recipient, the end of the list, or a failure. */
  function AfterMail(tos: seq<string>, next: nat, sent: bool, notice: Notice,
                     again: Pc, done: Pc, failed: (Pc, seq<Event>)): (Pc, seq<Event>) {
    if next >= |tos| then (done, [])
    else if sent then (again, [Delivered(tos[next], notice)])
    else failed
  }

  function AfterHook(hooks: seq<WebhookConfig>, last: Text, body: Text, diff: Diff.Diff, results: seq<bool>,
                     ok: bool): (Pc, seq<Event>) {
    if |results| >= |hooks| then (Updating(last, body, Some(diff), results), [])
    else (Hooking(last, body, diff, results + [ok]), [HookCalled(hooks[|results|], ok)])
  }

  function Next(j: Job, pc: Pc, answer: Outcome, input: Input): (Pc, seq<Event>) {
    match pc
    case Idle => AfterFetch(j, input.reply.fetched)
    case Reading(body) => AfterRead(j, body, answer)
    case Inserting(body) => if answer == Written then (Idle, [Inserted(body)]) else (Fail(j), [Failed])
    case Diffing(last, body) => AfterDiff(j, last, body, DiffNow(input.reply, last, body), input.reply.dumped)
    case Composing(last, body, diff) =>
      if input.reply.mailer && input.reply.rendered then (Mailing(last, body, diff, 0), []) else (Fail(j), [Failed])
    case Mailing(last, body, diff, next) =>
      AfterMail(Recipients(j), next, input.sent, DiffMail(diff), Mailing(last, body, diff, next + 1),
                Hooking(last, body, diff, []), (Fail(j), [Failed]))
    case Hooking(last, body, diff, results) =>
      AfterHook(j.watch.webhooks, last, body, diff, results, input.reply.hookOk)
    case Updating(last, body, _, results) => AfterUpdate(j, last, body, results, answer)
    case ComposingReport(invalid) =>
      if input.reply.mailer then (Reporting(invalid, 0), []) else (Fail(j), [Failed])
    case Reporting(invalid, next) =>
      AfterMail(Recipients(j), next, input.sent, InvalidMail(invalid), Reporting(invalid, next + 1), Idle,
                (Fail(j), [Failed]))
    case ComposingError => (if input.reply.mailer then Alarming(0) else Idle, [])
    case Alarming(next) =>
      AfterMail(j.config.mail.to, next, input.sent, ErrorMail, Alarming(next + 1), Idle, (Idle, []))
  }

  // ---- the state of a job and of its row ----

  /** `start` is the content when the current run began, `run` what the run has done, `trace` all runs. */
  datatype Control = Control(pc: Pc, start: Option<Text>, run: seq<Event>, trace: seq<Event>)

  function Advance(ctl: Control, cell: Option<Text>, next: (Pc, seq<Event>)): Control {
    Control(next.0,
            if ctl.pc.Idle? then cell else ctl.start,
            if ctl.pc.Idle? then next.1 else ctl.run + next.1,
            ctl.trace + next.1)
  }

  /** A watch's row, if it has one, holds its last content. */
  function ServeCell(cell: Option<Text>, request: Request, fault: bool): (Outcome, Option<Text>) {
    if request.Quiet? then (Nothing, cell)
    else if fault then (DbFailed, cell)
    else
      match request
      case Select => (if cell.Some? then Found(cell.value) else NoRow, cell)
      case Insert(content) => if cell.Some? then (DbFailed, cell) else (Written, Some(content))
      case Update(content) => if cell.None? then (DbFailed, cell) else (Written, Some(content))
  }

  datatype State = State(ctl: Control, cell: Option<Text>)

  function Moves(j: Job, s: State, input: Input): State {
    var served := ServeCell(s.cell, RequestAt(s.ctl.pc), input.reply.dbFault);
    State(Advance(s.ctl, s.cell, Next(j, s.ctl.pc, served.0, input)), served.1)
  }

  function Step(j: Job, s: State, reply: Reply): State {
    Moves(j, s, Heard(j, reply))
  }

  function Run(j: Job, s: State, replies: seq<Reply>): State {
    if replies == [] then s
    else Step(j, Run(j, s, replies[..|replies| - 1]), replies[|replies| - 1])
  }

  /** Before the first run. */
  function Fresh(cell: Option<Text>): State {
    State(Control(Idle, cell, [], []), cell)
  }

  // ---- what a run has done when it stands at pc ----

  function Served(tos: seq<string>, notice: Notice): seq<Event> {
    seq(|tos|, i requires 0 <= i < |tos| => Delivered(tos[i], notice))
  }

  function Called(hooks: seq<WebhookConfig>, results: seq<bool>): seq<Event>
    requires |results| <= |hooks|
  {
    seq(|results|, i requires 0 <= i < |results| => HookCalled(hooks[i], results[i]))
  }

  lemma ServedNext(tos: seq<string>, k: nat, notice: Notice)
    requires k < |tos|
    ensures Served(tos[..k + 1], notice) == Served(tos[..k], notice) + [Delivered(tos[k], notice)]
  {
  }

  lemma CalledNext(hooks: seq<WebhookConfig>, results: seq<bool>, ok: bool)
    requires |results| < |hooks|
    ensures Called(hooks, results + [ok]) == Called(hooks, results) + [HookCalled(hooks[|results|], ok)]
  {
  }

  /** The indices stay in bounds, only a changed body is announced, and a dry run announces nothing. */
  predicate PcOk(j: Job, pc: Pc) {
    match pc
    case Idle | Reading(_) | Inserting(_) => true
    case Diffing(last, body) => last != body
    case Composing(last, body, _) => last != body && !j.dryRun
    case Mailing(last, body, _, next) => last != body && !j.dryRun && next <= |Recipients(j)|
    case Hooking(last, body, _, results) => last != body && !j.dryRun && |results| <= |j.watch.webhooks|
    case Updating(last, body, shown, results) =>
      && (shown.None? <==> last == body)
      && |results| == if shown.None? || j.dryRun then 0 else |j.watch.webhooks|
    case ComposingReport(_) => !j.dryRun
    case Reporting(_, next) => !j.dryRun && next <= |Recipients(j)|
    case ComposingError => !j.dryRun
    case Alarming(next) => !j.dryRun && next <= |j.config.mail.to|
  }

  /** Everybody was mailed this diff of these contents, and then each webhook was called once. */
  function Announcement(j: Job, last: Text, body: Text, diff: Diff.Diff, results: seq<bool>): seq<Event>
    requires |results| <= |j.watch.webhooks|
  {
    [Compared(last, body, diff)] + Served(j.config.mail.to + j.watch.additionalTo, DiffMail(diff))
    + Called(j.watch.webhooks, results)
  }

  /** Entry by entry: everybody in Mail.To, then the additional recipients, then the webhooks. */
  lemma AnnouncementSpelled(j: Job, last: Text, body: Text, diff: Diff.Diff, results: seq<bool>)
    requires |results| == |j.watch.webhooks|
    ensures var log, to, more := Announcement(j, last, body, diff, results), j.config.mail.to, j.watch.additionalTo;
            && |log| == 1 + |to| + |more| + |results|
            && log[0] == Compared(last, body, diff)
            && (forall i | 0 <= i < |to| :: log[1 + i] == Delivered(to[i], DiffMail(diff)))
            && (forall i | 0 <= i < |more| :: log[1 + |to| + i] == Delivered(more[i], DiffMail(diff)))
            && (forall i | 0 <= i < |results| ::
                  log[1 + |to| + |more| + i] == HookCalled(j.watch.webhooks[i], results[i]))
  {
  }

  function LogAt(j: Job, pc: Pc): seq<Event>
    requires PcOk(j, pc)
  {
    match pc
    case Composing(last, body, diff) => [Compared(last, body, diff)]
    case Mailing(last, body, diff, next) =>
      [Compared(last, body, diff)] + Served(Recipients(j)[..next], DiffMail(diff))
    case Hooking(last, body, diff, results) => Announcement(j, last, body, diff, results)
    case Updating(last, body, shown, results) =>
      if shown.None? then []
      else if j.dryRun then [Compared(last, body, shown.value)]
      else Announcement(j, last, body, shown.value, results)
    case Reporting(invalid, next) => Served(Recipients(j)[..next], InvalidMail(invalid))
    case _ => []
  }

  /** The content the step at pc relies on. */
  predicate Holds(pc: Pc, start: Option<Text>) {
    match pc
    case Inserting(_) => start == None
    case Diffing(last, _) => start == Some(last)
    case Composing(last, _, _) => start == Some(last)
    case Mailing(last, _, _, _) => start == Some(last)
    case Hooking(last, _, _, _) => start == Some(last)
    case Updating(last, _, _, _) => start == Some(last)
    case _ => true
  }

  predicate Working(pc: Pc) {
    !pc.Idle? && !pc.ComposingError? && !pc.Alarming?
  }

  /** A run failed after `log`: before its update, or because of a webhook after it. */
  ghost predicate FailedAfter(j: Job, start: Option<Text>, cell: Option<Text>, log: seq<Event>) {
    || (cell == start
        && ((log == [] || exists pc | Working(pc) && PcOk(j, pc) && Holds(pc, start) :: log == LogAt(j, pc))))
    || (exists pc: Pc | pc.Updating? && PcOk(j, pc) && Holds(pc, start) && false in pc.results ::
          cell == Some(pc.body) && log == LogAt(j, pc) + [Committed(pc.last, pc.body)])
  }

  /** The five ways a run can end. */
  ghost predicate Ended(j: Job, start: Option<Text>, cell: Option<Text>, run: seq<Event>) {
    || (run == [] && cell == start)
    || (start == None && cell.Some? && run == [Inserted(cell.value)])
    || (exists pc: Pc | pc.Updating? && PcOk(j, pc) && Holds(pc, start) && false !in pc.results ::
          cell == Some(pc.body) && run == LogAt(j, pc) + [Committed(pc.last, pc.body)])
    || (exists invalid | cell == start && !j.dryRun ::
          run == Served(j.config.mail.to + j.watch.additionalTo, InvalidMail(invalid)))
    || (exists n, k | 0 <= n < |run| && 0 <= k <= |j.config.mail.to| && (j.dryRun ==> k == 0) ::
          && run == run[..n] + [Failed] + Served(j.config.mail.to[..k], ErrorMail)
          && FailedAfter(j, start, cell, run[..n]))
  }

  ghost predicate Inv(j: Job, s: State) {
    var pc, start, run := s.ctl.pc, s.ctl.start, s.ctl.run;
    && PcOk(j, pc)
    && Holds(pc, start)
    && match pc
       case Idle => Ended(j, start, s.cell, run)
       case ComposingError => run != [] && run[|run| - 1] == Failed && FailedAfter(j, start, s.cell, run[..|run| - 1])
       case Alarming(next) =>
         && |run| > next
         && run == run[..|run| - next - 1] + [Failed] + Served(j.config.mail.to[..next], ErrorMail)
         && FailedAfter(j, start, s.cell, run[..|run| - next - 1])
       case _ => s.cell == start && run == LogAt(j, pc)
  }

  lemma AfterFailure(j: Job, s: State, log: seq<Event>)
    requires s.ctl.pc == Fail(j) && s.ctl.run == log + [Failed]
    requires FailedAfter(j, s.ctl.start, s.cell, log)
    ensures Inv(j, s)
  {
    var run := s.ctl.run;
    assert run[..|log|] == log;
    if j.dryRun {
      assert Served(j.config.mail.to[..0], ErrorMail) == [];
      assert run == run[..|log|] + [Failed] + Served(j.config.mail.to[..0], ErrorMail);
    }
  }

  /** The step of a working run that fails: nothing was stored. */
  lemma WorkFails(j: Job, s: State, s': State)
    requires Inv(j, s) && Working(s.ctl.pc)
    requires s'.ctl.pc == Fail(j) && s'.ctl.run == s.ctl.run + [Failed]
    requires s'.ctl.start == s.ctl.start && s'.cell == s.cell
    ensures Inv(j, s')
  {
    AfterFailure(j, s', s.ctl.run);
  }

  lemma BeginKeepsInv(j: Job, s: State, input: Input)
    requires s.ctl.pc.Idle?
    ensures Inv(j, Moves(j, s, input))
  {
    var s' := Moves(j, s, input);
    if Failed in s'.ctl.run {
      AfterFailure(j, s', []);
    }
  }

  lemma ReadKeepsInv(j: Job, s: State, input: Input)
    requires Inv(j, s) && (s.ctl.pc.Reading? || s.ctl.pc.Inserting? || s.ctl.pc.Diffing?)
    ensures Inv(j, Moves(j, s, input))
  {
    var s' := Moves(j, s, input);
    if Failed in s'.ctl.run {
      WorkFails(j, s, s');
    }
  }

  lemma MailKeepsInv(j: Job, s: State, input: Input)
    requires Inv(j, s) && (s.ctl.pc.Composing? || s.ctl.pc.Mailing?)
    ensures Inv(j, Moves(j, s, input))
  {
    var s' := Moves(j, s, input);
    var tos := Recipients(j);
    if s'.ctl.pc == Fail(j) {
      WorkFails(j, s, s');
    } else if s.ctl.pc.Composing? {
      assert Served(tos[..0], DiffMail(s.ctl.pc.diff)) == [];
    } else if s.ctl.pc.next < |tos| {
      ServedNext(tos, s.ctl.pc.next, DiffMail(s.ctl.pc.diff));
    } else {
      assert tos[..|tos|] == tos;
      assert Called(j.watch.webhooks, []) == [];
    }
  }

  lemma HookKeepsInv(j: Job, s: State, input: Input)
    requires Inv(j, s) && s.ctl.pc.Hooking?
    ensures Inv(j, Moves(j, s, input))
  {
    if |s.ctl.pc.results| < |j.watch.webhooks| {
      CalledNext(j.watch.webhooks, s.ctl.pc.results, input.reply.hookOk);
    }
  }

  lemma UpdateKeepsInv(j: Job, s: State, input: Input)
    requires Inv(j, s) && s.ctl.pc.Updating?
    ensures Inv(j, Moves(j, s, input))
  {
    var s' := Moves(j, s, input);
    var pc := s.ctl.pc;
    if input.reply.dbFault {
      WorkFails(j, s, s');
    } else if false in pc.results {
      var log := LogAt(j, pc) + [Committed(pc.last, pc.body)];
      assert s'.ctl.run == log + [Failed];
      assert FailedAfter(j, s'.ctl.start, s'.cell, log);
      AfterFailure(j, s', log);
    }
  }

  lemma ReportKeepsInv(j: Job, s: State, input: Input)
    requires Inv(j, s) && (s.ctl.pc.ComposingReport? || s.ctl.pc.Reporting?)
    ensures Inv(j, Moves(j, s, input))
  {
    var s' := Moves(j, s, input);
    var tos := Recipients(j);
    if s'.ctl.pc == Fail(j) {
      WorkFails(j, s, s');
    } else if s.ctl.pc.ComposingReport? {
      assert Served(tos[..0], InvalidMail(s.ctl.pc.invalid)) == [];
    } else if s.ctl.pc.next < |tos| {
      ServedNext(tos, s.ctl.pc.next, InvalidMail(s.ctl.pc.invalid));
    } else {
      assert tos[..|tos|] == tos;
    }
  }

  /** After a failure and k error mails: the next mail, or the end. */
  lemma Alarmed(j: Job, s: State, log: seq<Event>, k: nat)
    requires !j.dryRun && k <= |j.config.mail.to|
    requires s.ctl.pc == Idle || s.ctl.pc == Alarming(k)
    requires s.ctl.run == log + [Failed] + Served(j.config.mail.to[..k], ErrorMail)
    requires FailedAfter(j, s.ctl.start, s.cell, log)
    ensures Inv(j, s)
  {
    var n, run := |log|, s.ctl.run;
    assert run[..n] == log;
    assert run == run[..n] + [Failed] + Served(j.config.mail.to[..k], ErrorMail);
    assert n == |run| - k - 1;
  }

  lemma ErrorKeepsInv(j: Job, s: State, input: Input)
    requires Inv(j, s) && s.ctl.pc.ComposingError?
    ensures Inv(j, Moves(j, s, input))
  {
    var s' := Moves(j, s, input);
    var run, to := s.ctl.run, j.config.mail.to;
    var log := run[..|run| - 1];
    assert Served(to[..0], ErrorMail) == [];
    assert run == log + [Failed];
    assert s'.ctl.run == log + [Failed] + Served(to[..0], ErrorMail);
    Alarmed(j, s', log, 0);
  }

  lemma AlarmSentKeepsInv(j: Job, s: State, input: Input)
    requires Inv(j, s) && s.ctl.pc.Alarming? && s.ctl.pc.next < |j.config.mail.to| && input.sent
    ensures Inv(j, Moves(j, s, input))
  {
    var s' := Moves(j, s, input);
    var run, to, k := s.ctl.run, j.config.mail.to, s.ctl.pc.next;
    var log := run[..|run| - k - 1];
    ServedNext(to, k, ErrorMail);
    Associate(log + [Failed], Served(to[..k], ErrorMail), [Delivered(to[k], ErrorMail)]);
    assert s'.ctl.run == log + [Failed] + Served(to[..k + 1], ErrorMail);
    Alarmed(j, s', log, k + 1);
  }

  lemma AlarmEndKeepsInv(j: Job, s: State, input: Input)
    requires Inv(j, s) && s.ctl.pc.Alarming? && !(s.ctl.pc.next < |j.config.mail.to| && input.sent)
    ensures Inv(j, Moves(j, s, input))
  {
    var s' := Moves(j, s, input);
    assert s'.ctl.run == s.ctl.run;
    Alarmed(j, s', s.ctl.run[..|s.ctl.run| - s.ctl.pc.next - 1], s.ctl.pc.next);
  }

  lemma MovesKeepsInv(j: Job, s: State, input: Input)
    requires Inv(j, s)
    ensures Inv(j, Moves(j, s, input))
  {
    match s.ctl.pc {
      case Idle => BeginKeepsInv(j, s, input);
      case Reading(_) | Inserting(_) => ReadKeepsInv(j, s, input);
      case Diffing(_, _) => ReadKeepsInv(j, s, input);
      case Composing(_, _, _) => MailKeepsInv(j, s, input);
      case Mailing(_, _, _, _) => MailKeepsInv(j, s, input);
      case Hooking(_, _, _, _) => HookKeepsInv(j, s, input);
      case Updating(_, _, _, _) => UpdateKeepsInv(j, s, input);
      case ComposingReport(_) => ReportKeepsInv(j, s, input);
      case Reporting(_, _) => ReportKeepsInv(j, s, input);
      case ComposingError => ErrorKeepsInv(j, s, input);
      case Alarming(next) =>
        if next < |j.config.mail.to| && input.sent {
          AlarmSentKeepsInv(j, s, input);
        } else {
          AlarmEndKeepsInv(j, s, input);
        }
    }
  }
}
