/** A run from its start to its end, and when it stores what it fetched. */
module Completion {
  import opened Basics
  import opened Config
  import opened Watch
  import opened Protocol
  import opened Runs
  import opened Steps
  import Diff

  function Left(list: nat, next: nat): nat {
    if next < list then list - next else 0
  }

  /** An upper bound on the steps until the run is over. */
  function Rank(j: Job, pc: Pc): nat {
    var to, all, hooks := |j.config.mail.to|, |Recipients(j)|, |j.watch.webhooks|;
    var failing := to + 3;
    match pc
    case Idle => 0
    case Alarming(next) => Left(to, next) + 1
    case ComposingError => to + 2
    case Inserting(_) | Updating(_, _, _, _) => failing
    case Reporting(_, next) => failing + Left(all, next)
    case ComposingReport(_) => failing + all + 1
    case Hooking(_, _, _, results) => failing + Left(hooks, |results|) + 1
    case Mailing(_, _, _, next) => failing + hooks + Left(all, next) + 2
    case Composing(_, _, _) => failing + hooks + all + 3
    case Diffing(_, _) => failing + hooks + all + 4
    case Reading(_) => failing + hooks + all + 5
  }

  lemma RankDrops(j: Job, pc: Pc, answer: Outcome, input: Input)
    requires !pc.Idle?
    ensures Rank(j, Next(j, pc, answer, input).0) < Rank(j, pc)
  {
  }

  /** Steps on the inputs from number `clock` on, until the job is idle. */
  function Finish(j: Job, s: State, inputs: nat -> Input, clock: nat): State
    decreases Rank(j, s.ctl.pc)
  {
    if s.ctl.pc.Idle? then s
    else
      var served := ServeCell(s.cell, RequestAt(s.ctl.pc), inputs(clock).reply.dbFault);
      RankDrops(j, s.ctl.pc, served.0, inputs(clock));
      Finish(j, Moves(j, s, inputs(clock)), inputs, clock + 1)
  }

  /** One run of the job. */
  function RunOnce(j: Job, s: State, inputs: nat -> Input): State {
    Finish(j, Moves(j, s, inputs(0)), inputs, 1)
  }

  function StepOf(j: Job, inputs: nat -> Input): (State, nat) -> State {
    (s: State, n: nat) => Moves(j, s, inputs(n))
  }

  predicate GoesOn(step: (State, nat) -> State, path: seq<State>, i: nat)
    requires i + 1 < |path|
  {
    path[i + 1] == step(path[i], i) && (i > 0 ==> !path[i].ctl.pc.Idle?)
  }

  ghost predicate IsPath(step: (State, nat) -> State, s: State, n: nat, s': State, path: seq<State>) {
    && |path| == n + 1 && path[0] == s && path[n] == s'
    && forall i | 0 <= i < n :: GoesOn(step, path, i)
  }

  /** n steps lead from s to s', and the run was not over before. */
  ghost predicate IsRun(j: Job, s: State, inputs: nat -> Input, n: nat, s': State) {
    exists path :: IsPath(StepOf(j, inputs), s, n, s', path)
  }

  lemma NoSteps(j: Job, s: State, inputs: nat -> Input)
    ensures IsRun(j, s, inputs, 0, s)
  {
    assert IsPath(StepOf(j, inputs), s, 0, s, [s]);
  }

  lemma PathExtended(step: (State, nat) -> State, s: State, n: nat, s': State, path: seq<State>)
    requires IsPath(step, s, n, s', path) && (s'.ctl.pc.Idle? ==> n == 0)
    ensures IsPath(step, s, n + 1, step(s', n), path + [step(s', n)])
  {
    var longer := path + [step(s', n)];
    forall i | 0 <= i < n + 1 ensures GoesOn(step, longer, i) {
      if i < n {
        assert GoesOn(step, path, i);
      }
    }
  }

  lemma OneMoreStep(j: Job, s: State, inputs: nat -> Input, n: nat, s': State)
    requires IsRun(j, s, inputs, n, s') && (s'.ctl.pc.Idle? ==> n == 0)
    ensures IsRun(j, s, inputs, n + 1, Moves(j, s', inputs(n)))
  {
    var step := StepOf(j, inputs);
    var path :| IsPath(step, s, n, s', path);
    PathExtended(step, s, n, s', path);
  }

  /** What the job makes of the world's replies. */
  ghost function Listening(j: Job, env: nat -> Reply): nat -> Input
  {
    (n: nat) => Heard(j, env(n))
  }

  lemma OneMoreReply(j: Job, s: State, env: nat -> Reply, n: nat, s': State)
    requires IsRun(j, s, Listening(j, env), n, s') && (s'.ctl.pc.Idle? ==> n == 0)
    ensures IsRun(j, s, Listening(j, env), n + 1, Step(j, s', env(n)))
  {
    OneMoreStep(j, s, Listening(j, env), n, s');
  }

  lemma FinishStep(j: Job, s: State, inputs: nat -> Input, clock: nat)
    requires !s.ctl.pc.Idle?
    ensures Finish(j, s, inputs, clock) == Finish(j, Moves(j, s, inputs(clock)), inputs, clock + 1)
  {
  }

  lemma {:induction false} FinishPath(j: Job, s: State, inputs: nat -> Input, n: nat, s': State, path: seq<State>,
                                      k: nat)
    requires IsPath(StepOf(j, inputs), s, n, s', path) && 0 < k <= n && s'.ctl.pc.Idle?
    ensures Finish(j, path[k], inputs, k) == s'
    decreases n - k
  {
    if k < n {
      assert GoesOn(StepOf(j, inputs), path, k);
      FinishStep(j, path[k], inputs, k);
      FinishPath(j, s, inputs, n, s', path, k + 1);
    }
  }

  /** A run that has just become idle is one whole run. */
  lemma IsRunOnce(j: Job, s: State, inputs: nat -> Input, n: nat, s': State)
    requires IsRun(j, s, inputs, n, s') && n > 0 && s'.ctl.pc.Idle?
    ensures s' == RunOnce(j, s, inputs)
  {
    var path :| IsPath(StepOf(j, inputs), s, n, s', path);
    assert GoesOn(StepOf(j, inputs), path, 0);
    FinishPath(j, s, inputs, n, s', path, 1);
  }

  /** Finishing continues a history. */
  lemma {:induction false} FinishIsRun(j: Job, s0: State, replies: seq<Reply>, env: nat -> Reply, clock: nat)
    returns (all: seq<Reply>)
    ensures Finish(j, Run(j, s0, replies), Listening(j, env), clock) == Run(j, s0, all)
    decreases Rank(j, Run(j, s0, replies).ctl.pc)
  {
    var s := Run(j, s0, replies);
    if s.ctl.pc.Idle? {
      all := replies;
    } else {
      var input := Heard(j, env(clock));
      RankDrops(j, s.ctl.pc, ServeCell(s.cell, RequestAt(s.ctl.pc), input.reply.dbFault).0, input);
      FinishStep(j, s, Listening(j, env), clock);
      RunSnoc(j, s0, replies, env(clock));
      all := FinishIsRun(j, s0, replies + [env(clock)], env, clock + 1);
    }
  }

  lemma {:induction false} FinishEndsIdle(j: Job, s: State, inputs: nat -> Input, clock: nat)
    ensures Finish(j, s, inputs, clock).ctl.pc.Idle?
    decreases Rank(j, s.ctl.pc)
  {
    if !s.ctl.pc.Idle? {
      FinishStep(j, s, inputs, clock);
      RankDrops(j, s.ctl.pc, ServeCell(s.cell, RequestAt(s.ctl.pc), inputs(clock).reply.dbFault).0, inputs(clock));
      FinishEndsIdle(j, Moves(j, s, inputs(clock)), inputs, clock + 1);
    }
  }

  /** A whole run leads from one reachable state to another, an idle one. */
  lemma RunOnceReachable(j: Job, s: State, env: nat -> Reply)
    requires Reachable(j, s)
    ensures Reachable(j, RunOnce(j, s, Listening(j, env))) && RunOnce(j, s, Listening(j, env)).ctl.pc.Idle?
  {
    var cell, replies :| s == Run(j, Fresh(cell), replies);
    RunSnoc(j, Fresh(cell), replies, env(0));
    var all := FinishIsRun(j, Fresh(cell), replies + [env(0)], env, 1);
    FinishEndsIdle(j, Moves(j, s, Listening(j, env)(0)), Listening(j, env), 1);
  }

  // ---- once the content is out of reach ----

  /** No step from here on writes. */
  predicate Settled(pc: Pc) {
    pc.Idle? || pc.ComposingReport? || pc.Reporting? || pc.ComposingError? || pc.Alarming?
  }

  lemma SettledMoves(j: Job, s: State, input: Input)
    requires !s.ctl.pc.Idle? && Settled(s.ctl.pc)
    ensures var s' := Moves(j, s, input);
            s'.cell == s.cell && Settled(s'.ctl.pc) && Rank(j, s'.ctl.pc) < Rank(j, s.ctl.pc)
  {
  }

  lemma {:induction false} SettledKeepsCell(j: Job, s: State, inputs: nat -> Input, clock: nat)
    requires Settled(s.ctl.pc)
    ensures Finish(j, s, inputs, clock).cell == s.cell
    decreases Rank(j, s.ctl.pc)
  {
    if !s.ctl.pc.Idle? {
      FinishStep(j, s, inputs, clock);
      SettledMoves(j, s, inputs(clock));
      SettledKeepsCell(j, Moves(j, s, inputs(clock)), inputs, clock + 1);
    }
  }

  // ---- the phases of a run ----

  /** The next n mails are accepted. */
  ghost predicate AllSent(inputs: nat -> Input, clock: nat, n: nat) {
    forall i | clock <= i < clock + n :: inputs(i).sent
  }

  lemma OneSent(inputs: nat -> Input, clock: nat, n: nat)
    requires n > 0
    ensures AllSent(inputs, clock, n) <==> inputs(clock).sent && AllSent(inputs, clock + 1, n - 1)
  {
  }

  lemma UpdatePhase(j: Job, s: State, inputs: nat -> Input, clock: nat)
    requires s.ctl.pc.Updating? && s.cell.Some?
    ensures Finish(j, s, inputs, clock).cell == if inputs(clock).reply.dbFault then s.cell else Some(s.ctl.pc.body)
  {
    FinishStep(j, s, inputs, clock);
    UpdateMoves(j, s, inputs(clock));
    SettledKeepsCell(j, Moves(j, s, inputs(clock)), inputs, clock + 1);
  }

  /** Whatever the webhooks answer, the update is next. */
  lemma {:induction false} HookPhase(j: Job, s: State, inputs: nat -> Input, clock: nat, end: nat)
    requires s.ctl.pc.Hooking? && |s.ctl.pc.results| <= |j.watch.webhooks| && s.cell.Some?
    requires end == clock + |j.watch.webhooks| - |s.ctl.pc.results| + 1
    ensures Finish(j, s, inputs, clock).cell == if inputs(end).reply.dbFault then s.cell else Some(s.ctl.pc.body)
    decreases |j.watch.webhooks| - |s.ctl.pc.results|
  {
    var s' := Moves(j, s, inputs(clock));
    FinishStep(j, s, inputs, clock);
    HookMoves(j, s, inputs(clock));
    if |s.ctl.pc.results| < |j.watch.webhooks| {
      HookPhase(j, s', inputs, clock + 1, end);
    } else {
      UpdatePhase(j, s', inputs, clock + 1);
    }
  }

  lemma {:induction false} MailPhase(j: Job, s: State, inputs: nat -> Input, clock: nat, n: nat, end: nat)
    requires s.ctl.pc.Mailing? && s.cell.Some?
    requires n + s.ctl.pc.next == |Recipients(j)| && end == clock + n + |j.watch.webhooks| + 2
    ensures Finish(j, s, inputs, clock).cell
         == if AllSent(inputs, clock, n) && !inputs(end).reply.dbFault then Some(s.ctl.pc.body) else s.cell
    decreases n
  {
    var s' := Moves(j, s, inputs(clock));
    FinishStep(j, s, inputs, clock);
    MailMoves(j, s, inputs(clock));
    if n == 0 {
      HookPhase(j, s', inputs, clock + 1, end);
    } else {
      OneSent(inputs, clock, n);
      if inputs(clock).sent {
        MailPhase(j, s', inputs, clock + 1, n - 1, end);
      } else {
        SettledKeepsCell(j, s', inputs, clock + 1);
      }
    }
  }

  /** From the step that prepares the mail: it is rendered, everybody gets it, and the update succeeds. */
  ghost predicate NotifiedFrom(j: Job, inputs: nat -> Input, clock: nat) {
    var n, hooks := |Recipients(j)|, |j.watch.webhooks|;
    && inputs(clock).reply.mailer && inputs(clock).reply.rendered
    && AllSent(inputs, clock + 1, n)
    && !inputs(clock + n + hooks + 3).reply.dbFault
  }

  lemma ComposePhase(j: Job, s: State, inputs: nat -> Input, clock: nat)
    requires s.ctl.pc.Composing? && s.cell.Some?
    ensures Finish(j, s, inputs, clock).cell
         == if NotifiedFrom(j, inputs, clock) then Some(s.ctl.pc.body) else s.cell
  {
    FinishStep(j, s, inputs, clock);
    var s' := Moves(j, s, inputs(clock));
    ComposeMoves(j, s, inputs(clock));
    if inputs(clock).reply.mailer && inputs(clock).reply.rendered {
      MailPhase(j, s', inputs, clock + 1, |Recipients(j)|, clock + |Recipients(j)| + |j.watch.webhooks| + 3);
    } else {
      SettledKeepsCell(j, s', inputs, clock + 1);
    }
  }

  /** From the diff on. */
  ghost predicate GoesThrough(j: Job, inputs: nat -> Input, clock: nat, last: Text, body: Text) {
    && DiffNow(inputs(clock).reply, last, body).Some?
    && (j.dumpDiffHTML ==> inputs(clock).reply.dumped)
    && if j.dryRun then !inputs(clock + 1).reply.dbFault else NotifiedFrom(j, inputs, clock + 1)
  }

  /** The new content is stored; no answer of a webhook is asked for. */
  ghost predicate Commits(j: Job, inputs: nat -> Input, last: Text, body: Text) {
    !inputs(1).reply.dbFault && GoesThrough(j, inputs, 2, last, body)
  }

  lemma DiffPhase(j: Job, s: State, inputs: nat -> Input, clock: nat)
    requires s.ctl.pc.Diffing? && s.cell.Some?
    ensures Finish(j, s, inputs, clock).cell
         == if GoesThrough(j, inputs, clock, s.ctl.pc.last, s.ctl.pc.body) then Some(s.ctl.pc.body) else s.cell
  {
    FinishStep(j, s, inputs, clock);
    var s1 := Moves(j, s, inputs(clock));
    if s1.ctl.pc.Composing? {
      ComposePhase(j, s1, inputs, clock + 1);
    } else if s1.ctl.pc.Updating? {
      UpdatePhase(j, s1, inputs, clock + 1);
    } else {
      SettledKeepsCell(j, s1, inputs, clock + 1);
    }
  }

  lemma ReadPhase(j: Job, s: State, inputs: nat -> Input, last: Text)
    requires s.ctl.pc.Reading? && s.cell == Some(last) && s.ctl.pc.body != last
    ensures Finish(j, s, inputs, 1).cell
         == if Commits(j, inputs, last, s.ctl.pc.body) then Some(s.ctl.pc.body) else s.cell
  {
    FinishStep(j, s, inputs, 1);
    var s' := Moves(j, s, inputs(1));
    ReadMoves(j, s, inputs(1));
    if inputs(1).reply.dbFault {
      SettledKeepsCell(j, s', inputs, 2);
    } else {
      DiffPhase(j, s', inputs, 2);
    }
  }

  lemma CommitsCell(j: Job, s: State, inputs: nat -> Input, last: Text, fetched: Response)
    requires s.ctl.pc.Idle? && s.cell == Some(last)
    requires inputs(0).reply.fetched == Ok(fetched) && fetched.body != last
    ensures RunOnce(j, s, inputs).cell
         == if Commits(j, inputs, last, fetched.body) then Some(fetched.body) else Some(last)
  {
    ReadPhase(j, Moves(j, s, inputs(0)), inputs, last);
  }

  lemma CommitsSpelled(j: Job, inputs: nat -> Input, last: Text, body: Text)
    ensures var n, hooks := |j.config.mail.to| + |j.watch.additionalTo|, |j.watch.webhooks|;
            Commits(j, inputs, last, body) <==>
              && !inputs(1).reply.dbFault
              && inputs(2).reply.git(last, body).Some?
              && Diff.Parsed(inputs(2).reply.git(last, body).value).Some?
              && (j.dumpDiffHTML ==> inputs(2).reply.dumped)
              && if j.dryRun then !inputs(3).reply.dbFault
                 else
                   && inputs(3).reply.mailer && inputs(3).reply.rendered
                   && (forall i | 4 <= i < 4 + n :: inputs(i).sent)
                   && !inputs(6 + n + hooks).reply.dbFault
  {
    assert |Recipients(j)| == |j.config.mail.to| + |j.watch.additionalTo|;
  }

  /**
    A run that fetched a changed body stores it if and only if the read, the diff,
    the mail to everybody and the update succeed; otherwise the old content stays.
    In dry-run mode the mail is not a condition.
   */
  lemma CommitsIff(j: Job, s: State, inputs: nat -> Input, last: Text, fetched: Response)
    requires s.ctl.pc.Idle? && s.cell == Some(last)
    requires inputs(0).reply.fetched == Ok(fetched) && fetched.body != last
    ensures RunOnce(j, s, inputs).cell == Some(fetched.body) || RunOnce(j, s, inputs).cell == Some(last)
    ensures var n, hooks := |j.config.mail.to| + |j.watch.additionalTo|, |j.watch.webhooks|;
            RunOnce(j, s, inputs).cell == Some(fetched.body) <==>
              && !inputs(1).reply.dbFault
              && inputs(2).reply.git(last, fetched.body).Some?
              && Diff.Parsed(inputs(2).reply.git(last, fetched.body).value).Some?
              && (j.dumpDiffHTML ==> inputs(2).reply.dumped)
              && if j.dryRun then !inputs(3).reply.dbFault
                 else
                   && inputs(3).reply.mailer && inputs(3).reply.rendered
                   && (forall i | 4 <= i < 4 + n :: inputs(i).sent)
                   && !inputs(6 + n + hooks).reply.dbFault
  {
    CommitsCell(j, s, inputs, last, fetched);
    CommitsSpelled(j, inputs, last, fetched.body);
  }

  /** A first fetch becomes the baseline if and only if the read and the insert succeed. */
  lemma BaselineIff(j: Job, s: State, inputs: nat -> Input, fetched: Response)
    requires s.ctl.pc.Idle? && s.cell == None && inputs(0).reply.fetched == Ok(fetched)
    ensures RunOnce(j, s, inputs).cell
         == if !inputs(1).reply.dbFault && !inputs(2).reply.dbFault then Some(fetched.body) else None
  {
    var s1 := Moves(j, s, inputs(0));
    FinishStep(j, s1, inputs, 1);
    var s2 := Moves(j, s1, inputs(1));
    if inputs(1).reply.dbFault {
      SettledKeepsCell(j, s2, inputs, 2);
    } else {
      FinishStep(j, s2, inputs, 2);
      SettledKeepsCell(j, Moves(j, s2, inputs(2)), inputs, 3);
    }
  }

  /** Without an answer to compare, the row is not touched. */
  lemma NoAnswerKeepsCell(j: Job, s: State, inputs: nat -> Input)
    requires s.ctl.pc.Idle? && inputs(0).reply.fetched.Err?
    ensures RunOnce(j, s, inputs).cell == s.cell
  {
    SettledKeepsCell(j, Moves(j, s, inputs(0)), inputs, 1);
  }

  /** An unchanged body is written back, and changes nothing. */
  lemma UnchangedKeepsCell(j: Job, s: State, inputs: nat -> Input, fetched: Response)
    requires s.ctl.pc.Idle? && s.cell == Some(fetched.body) && inputs(0).reply.fetched == Ok(fetched)
    ensures RunOnce(j, s, inputs).cell == s.cell
  {
    var s1 := Moves(j, s, inputs(0));
    FinishStep(j, s1, inputs, 1);
    var s2 := Moves(j, s1, inputs(1));
    if inputs(1).reply.dbFault {
      SettledKeepsCell(j, s2, inputs, 2);
    } else {
      UpdatePhase(j, s2, inputs, 2);
    }
  }

  ghost predicate SameButHooks(a: Input, b: Input) {
    a.(reply := a.reply.(hookOk := b.reply.hookOk)) == b
  }

  lemma CommitsSame(j: Job, inputs: nat -> Input, inputs': nat -> Input, last: Text, body: Text)
    requires forall n: nat :: SameButHooks(inputs(n), inputs'(n))
    ensures Commits(j, inputs, last, body) == Commits(j, inputs', last, body)
  {
    assert SameButHooks(inputs(1), inputs'(1));
    assert SameButHooks(inputs(2), inputs'(2));
    assert SameButHooks(inputs(3), inputs'(3));
    forall i: nat ensures inputs(i).sent == inputs'(i).sent && inputs(i).reply.dbFault == inputs'(i).reply.dbFault {
      assert SameButHooks(inputs(i), inputs'(i));
    }
  }

  /** No pattern of webhook answers changes what is stored in the end. */
  lemma HooksDoNotMatter(j: Job, s: State, inputs: nat -> Input, inputs': nat -> Input)
    requires s.ctl.pc.Idle? && forall n: nat :: SameButHooks(inputs(n), inputs'(n))
    ensures RunOnce(j, s, inputs).cell == RunOnce(j, s, inputs').cell
  {
    assert SameButHooks(inputs(0), inputs'(0));
    match inputs(0).reply.fetched {
      case Err(_) =>
        NoAnswerKeepsCell(j, s, inputs);
        NoAnswerKeepsCell(j, s, inputs');
      case Ok(r) =>
        if s.cell == None {
          assert SameButHooks(inputs(1), inputs'(1)) && SameButHooks(inputs(2), inputs'(2));
          BaselineIff(j, s, inputs, r);
          BaselineIff(j, s, inputs', r);
        } else if s.cell == Some(r.body) {
          UnchangedKeepsCell(j, s, inputs, r);
          UnchangedKeepsCell(j, s, inputs', r);
        } else {
          CommitsSame(j, inputs, inputs', s.cell.value, r.body);
          CommitsCell(j, s, inputs, s.cell.value, r);
          CommitsCell(j, s, inputs', s.cell.value, r);
        }
    }
  }

  // ---- a fetched change ----

  /** The change is stored after its announcement, or a failure is logged and the old content kept. */
  ghost predicate ChangeAccounted(j: Job, last: Text, body: Text, s: State) {
    || (s.cell == Some(last) && Failed in s.ctl.run)
    || (s.cell == Some(body) && exists d :: Announced(j, last, body, d, s.ctl.run))
  }

  /** The run has fetched `body` for the content `last` and is not over, or has accounted for the change. */
  ghost predicate Pursuing(j: Job, last: Text, body: Text, s: State) {
    match s.ctl.pc
    case Reading(b) => b == body && s.cell == Some(last)
    case Diffing(l, b) => (l, b) == (last, body) && s.cell == Some(last)
    case Composing(l, b, _) => (l, b) == (last, body) && s.cell == Some(last)
    case Mailing(l, b, _, _) => (l, b) == (last, body) && s.cell == Some(last)
    case Hooking(l, b, _, _) => (l, b) == (last, body) && s.cell == Some(last)
    case Updating(l, b, _, _) => (l, b) == (last, body) && s.cell == Some(last)
    case Idle | ComposingError => ChangeAccounted(j, last, body, s)
    case Alarming(_) => ChangeAccounted(j, last, body, s)
    case _ => false
  }

  lemma FailureStays(run: seq<Event>, run': seq<Event>)
    requires Failed in run && run <= run'
    ensures Failed in run'
  {
    var i :| 0 <= i < |run| && run[i] == Failed;
    assert run'[i] == Failed;
  }

  lemma AnnouncementStays(j: Job, last: Text, body: Text, d: Diff.Diff, run: seq<Event>, run': seq<Event>)
    requires Announced(j, last, body, d, run) && run <= run'
    ensures Announced(j, last, body, d, run')
  {
    var results :| |results| == |j.watch.webhooks| && Announcement(j, last, body, d, results) <= run;
    assert Announcement(j, last, body, d, results) <= run';
  }

  lemma AccountedLonger(j: Job, last: Text, body: Text, s: State, s': State)
    requires ChangeAccounted(j, last, body, s) && s'.cell == s.cell && s.ctl.run <= s'.ctl.run
    ensures ChangeAccounted(j, last, body, s')
  {
    if s.cell == Some(last) && Failed in s.ctl.run {
      FailureStays(s.ctl.run, s'.ctl.run);
    } else {
      var d :| Announced(j, last, body, d, s.ctl.run);
      AnnouncementStays(j, last, body, d, s.ctl.run, s'.ctl.run);
    }
  }

  lemma PursuingUpdate(j: Job, last: Text, body: Text, s: State, input: Input)
    requires Inv(j, s) && Pursuing(j, last, body, s) && s.ctl.pc.Updating? && !j.dryRun && last != body
    ensures ChangeAccounted(j, last, body, Moves(j, s, input))
  {
    var pc, s' := s.ctl.pc, Moves(j, s, input);
    if input.reply.dbFault {
      assert s'.ctl.run[|s.ctl.run|] == Failed;
    } else {
      assert s.ctl.run == Announcement(j, last, body, pc.shown.value, pc.results);
      assert s.ctl.run <= s'.ctl.run;
      assert Announced(j, last, body, pc.shown.value, s'.ctl.run);
    }
  }

  lemma FailureAccounts(j: Job, last: Text, body: Text, s: State, s': State)
    requires s'.cell == Some(last) && s'.ctl.run == s.ctl.run + [Failed]
    ensures ChangeAccounted(j, last, body, s')
  {
    assert s'.ctl.run[|s.ctl.run|] == Failed;
  }

  lemma PursuingRead(j: Job, last: Text, body: Text, s: State, input: Input)
    requires Pursuing(j, last, body, s) && !j.dryRun && last != body
    requires s.ctl.pc.Reading? || s.ctl.pc.Diffing? || s.ctl.pc.Composing?
    ensures Pursuing(j, last, body, Moves(j, s, input))
  {
    var s' := Moves(j, s, input);
    if s'.ctl.pc.ComposingError? {
      FailureAccounts(j, last, body, s, s');
    }
  }

  lemma PursuingMail(j: Job, last: Text, body: Text, s: State, input: Input)
    requires Pursuing(j, last, body, s) && !j.dryRun
    requires s.ctl.pc.Mailing? || s.ctl.pc.Hooking?
    ensures Pursuing(j, last, body, Moves(j, s, input))
  {
    var s' := Moves(j, s, input);
    if s'.ctl.pc.ComposingError? {
      FailureAccounts(j, last, body, s, s');
    }
  }

  lemma PursuingStep(j: Job, last: Text, body: Text, s: State, input: Input)
    requires Inv(j, s) && Pursuing(j, last, body, s) && !s.ctl.pc.Idle? && !j.dryRun && last != body
    ensures Pursuing(j, last, body, Moves(j, s, input))
  {
    var s' := Moves(j, s, input);
    match s.ctl.pc {
      case Reading(_) => PursuingRead(j, last, body, s, input);
      case Diffing(_, _) => PursuingRead(j, last, body, s, input);
      case Composing(_, _, _) => PursuingRead(j, last, body, s, input);
      case Mailing(_, _, _, _) => PursuingMail(j, last, body, s, input);
      case Hooking(_, _, _, _) => PursuingMail(j, last, body, s, input);
      case Updating(_, _, _, _) => PursuingUpdate(j, last, body, s, input);
      case _ => AccountedLonger(j, last, body, s, s');
    }
  }

  lemma {:induction false} FinishPursues(j: Job, last: Text, body: Text, s: State, inputs: nat -> Input, clock: nat)
    requires Inv(j, s) && Pursuing(j, last, body, s) && !j.dryRun && last != body
    ensures ChangeAccounted(j, last, body, Finish(j, s, inputs, clock))
    decreases Rank(j, s.ctl.pc)
  {
    if !s.ctl.pc.Idle? {
      FinishStep(j, s, inputs, clock);
      MovesKeepsInv(j, s, inputs(clock));
      PursuingStep(j, last, body, s, inputs(clock));
      RankDrops(j, s.ctl.pc, ServeCell(s.cell, RequestAt(s.ctl.pc), inputs(clock).reply.dbFault).0, inputs(clock));
      FinishPursues(j, last, body, Moves(j, s, inputs(clock)), inputs, clock + 1);
    }
  }

  /**
    No fetched change is lost: whatever fails after the fetch, the run either
    announces the change to everybody and stores it, or it logs a failure and leaves
    the old content, so that the next run finds the change again.
   */
  lemma NoFetchedChangeLost(j: Job, s: State, inputs: nat -> Input, last: Text, fetched: Response)
    requires !j.dryRun && Reachable(j, s) && s.ctl.pc.Idle? && s.cell == Some(last)
    requires inputs(0).reply.fetched == Ok(fetched) && fetched.body != last
    ensures ChangeAccounted(j, last, fetched.body, RunOnce(j, s, inputs))
  {
    ReachableInv(j, s);
    MovesKeepsInv(j, s, inputs(0));
    FinishPursues(j, last, fetched.body, Moves(j, s, inputs(0)), inputs, 1);
  }
}
