/** Who gets the mail about an error, after any step that fails. */
module Alarms {
  import opened Basics
  import opened Watch
  import opened Protocol
  import opened Runs
  import opened Completion
  import opened Steps
  import opened Reports

  // ---- the error's own mails ----

  lemma AlarmGoesOn(j: Job, s: State, inputs: nat -> Input, clock: nat, n: nat)
    requires s.ctl.pc == Alarming(n) && n < |j.config.mail.to|
    ensures var s' := Moves(j, s, inputs(clock));
            && Finish(j, s, inputs, clock) == Finish(j, s', inputs, clock + 1)
            && if inputs(clock).sent
               then s'.ctl.pc == Alarming(n + 1)
                    && s'.ctl.run == s.ctl.run + [Delivered(j.config.mail.to[n], ErrorMail)]
               else Finish(j, s, inputs, clock).ctl.run == s.ctl.run
  {
    FinishStep(j, s, inputs, clock);
    AlarmMoves(j, s, inputs(clock));
  }

  lemma OtherEntry(log: seq<Event>, e: Event, other: Event)
    requires e !in log && e != other
    ensures e !in log + [other]
  {
  }

  lemma LaterRecipient(tos: seq<string>, n: nat, k: nat)
    requires n < k < |tos| && tos[k] !in tos[..k]
    ensures tos[n] != tos[k]
  {
    assert tos[..k][n] == tos[n];
  }

  lemma LastEntryStays(j: Job, s: State, inputs: nat -> Input, clock: nat, log: seq<Event>, e: Event)
    requires s.ctl.run == log + [e]
    ensures e in Finish(j, s, inputs, clock).ctl.run
  {
    StaysInLog(j, s, inputs, clock, |log|);
  }

  /** `ends` says where each run ends. */
  ghost predicate IsFinish(j: Job, inputs: nat -> Input, ends: (State, nat) -> State) {
    forall s, clock {:trigger Finish(j, s, inputs, clock)} :: ends(s, clock) == Finish(j, s, inputs, clock)
  }

  lemma AlarmNow(j: Job, s: State, inputs: nat -> Input, clock: nat, n: nat, e: Event, ends: (State, nat) -> State)
    requires IsFinish(j, inputs, ends)
    requires s.ctl.pc == Alarming(n) && n < |j.config.mail.to| && e !in s.ctl.run
    requires e == Delivered(j.config.mail.to[n], ErrorMail)
    ensures e in ends(s, clock).ctl.run <==> inputs(clock).sent
  {
    AlarmGoesOn(j, s, inputs, clock, n);
    if inputs(clock).sent {
      LastEntryStays(j, Moves(j, s, inputs(clock)), inputs, clock + 1, s.ctl.run, e);
    }
  }

  lemma AlarmLater(j: Job, s: State, inputs: nat -> Input, clock: nat, n: nat, e: Event, ends: (State, nat) -> State)
    returns (s': State)
    requires IsFinish(j, inputs, ends)
    requires s.ctl.pc == Alarming(n) && n < |j.config.mail.to| && e !in s.ctl.run
    requires e != Delivered(j.config.mail.to[n], ErrorMail)
    ensures if inputs(clock).sent
            then s'.ctl.pc == Alarming(n + 1) && e !in s'.ctl.run && ends(s, clock) == ends(s', clock + 1)
            else e !in ends(s, clock).ctl.run
  {
    s' := Moves(j, s, inputs(clock));
    AlarmGoesOn(j, s, inputs, clock, n);
    if inputs(clock).sent {
      OtherEntry(s.ctl.run, e, Delivered(j.config.mail.to[n], ErrorMail));
    }
  }

  /** With n recipients served, recipient k is served if and only if the next k - n + 1 mails are accepted. */
  lemma {:induction false} AlarmPhase(j: Job, s: State, inputs: nat -> Input, clock: nat, n: nat, k: nat, e: Event,
                                      ends: (State, nat) -> State)
    requires IsFinish(j, inputs, ends)
    requires n <= k < |j.config.mail.to| && j.config.mail.to[k] !in j.config.mail.to[..k]
    requires e == Delivered(j.config.mail.to[k], ErrorMail)
    requires s.ctl.pc == Alarming(n) && e !in s.ctl.run
    ensures e in ends(s, clock).ctl.run <==> AllSent(inputs, clock, k - n + 1)
    decreases k - n
  {
    OneSent(inputs, clock, k - n + 1);
    if n == k {
      AlarmNow(j, s, inputs, clock, n, e, ends);
    } else {
      LaterRecipient(j.config.mail.to, n, k);
      var s' := AlarmLater(j, s, inputs, clock, n, e, ends);
      if inputs(clock).sent {
        AlarmPhase(j, s', inputs, clock + 1, n + 1, k, e, ends);
      }
    }
  }

  lemma AlarmFrom(j: Job, s: State, inputs: nat -> Input, clock: nat, k: nat)
    requires k < |j.config.mail.to| && j.config.mail.to[k] !in j.config.mail.to[..k]
    requires s.ctl.pc.ComposingError? && Delivered(j.config.mail.to[k], ErrorMail) !in s.ctl.run
    ensures Delivered(j.config.mail.to[k], ErrorMail) in Finish(j, s, inputs, clock).ctl.run
       <==> inputs(clock).reply.mailer && AllSent(inputs, clock + 1, k + 1)
  {
    FinishStep(j, s, inputs, clock);
    ComposeErrorMoves(j, s, inputs(clock));
    if inputs(clock).reply.mailer {
      var ends := (s: State, clock: nat) => Finish(j, s, inputs, clock);
      var e := Delivered(j.config.mail.to[k], ErrorMail);
      AlarmPhase(j, Moves(j, s, inputs(clock)), inputs, clock + 1, 0, k, e, ends);
    }
  }

  // ---- the step that fails ----

  /** The job in state s makes its step on input `clock`; step n of the run is the one that logs a failure. */
  ghost predicate FailsIn(j: Job, s: State, inputs: nat -> Input, clock: nat, n: nat)
    requires clock <= n
    decreases n - clock
  {
    var s' := Moves(j, s, inputs(clock));
    if clock == n then Failed in s'.ctl.run
    else Failed !in s'.ctl.run && !s'.ctl.pc.Idle? && FailsIn(j, s', inputs, clock + 1, n)
  }

  lemma FailingStep(j: Job, pc: Pc, answer: Outcome, input: Input)
    requires Failed in Next(j, pc, answer, input).1
    ensures Next(j, pc, answer, input).0 == if j.dryRun then Idle else ComposingError
    ensures forall e | e in Next(j, pc, answer, input).1 :: !e.Delivered?
  {
  }

  /** The job is between two steps of a run that has not failed, or about to begin one. */
  ghost predicate Sound(j: Job, s: State) {
    s.ctl.pc.Idle? || (Inv(j, s) && Failed !in s.ctl.run)
  }

  lemma SoundMoves(j: Job, s: State, input: Input)
    requires Sound(j, s)
    ensures Inv(j, Moves(j, s, input))
  {
    if s.ctl.pc.Idle? {
      BeginKeepsInv(j, s, input);
    } else {
      MovesKeepsInv(j, s, input);
    }
  }

  lemma AlarmingHasFailed(j: Job, s: State)
    requires Inv(j, s)
    ensures s.ctl.pc.Alarming? ==> Failed in s.ctl.run
  {
    if s.ctl.pc.Alarming? {
      assert s.ctl.run[|s.ctl.run| - s.ctl.pc.next - 1] == Failed;
    }
  }

  lemma SoundIsQuiet(j: Job, s: State, to: string)
    requires Sound(j, s) && !s.ctl.pc.Idle?
    ensures Delivered(to, ErrorMail) !in s.ctl.run
  {
    AlarmingHasFailed(j, s);
    NoErrorMailsYet(j, s, to);
  }

  lemma FailedMoves(j: Job, s: State, input: Input, to: string)
    requires Sound(j, s) && Failed in Moves(j, s, input).ctl.run
    ensures Moves(j, s, input).ctl.pc == if j.dryRun then Idle else ComposingError
    ensures Delivered(to, ErrorMail) !in Moves(j, s, input).ctl.run
  {
    var answer := ServeCell(s.cell, RequestAt(s.ctl.pc), input.reply.dbFault).0;
    FailingStep(j, s.ctl.pc, answer, input);
    if !s.ctl.pc.Idle? {
      SoundIsQuiet(j, s, to);
    }
  }

  lemma {:induction false} FailureAlarms(j: Job, s: State, inputs: nat -> Input, clock: nat, n: nat, k: nat)
    requires Sound(j, s) && clock <= n && FailsIn(j, s, inputs, clock, n)
    requires k < |j.config.mail.to| && j.config.mail.to[k] !in j.config.mail.to[..k]
    ensures Delivered(j.config.mail.to[k], ErrorMail)
              in Finish(j, Moves(j, s, inputs(clock)), inputs, clock + 1).ctl.run
       <==> !j.dryRun && inputs(n + 1).reply.mailer && AllSent(inputs, n + 2, k + 1)
    decreases n - clock
  {
    var s' := Moves(j, s, inputs(clock));
    if clock == n {
      FailedMoves(j, s, inputs(clock), j.config.mail.to[k]);
      if !j.dryRun {
        AlarmFrom(j, s', inputs, clock + 1, k);
      }
    } else {
      SoundMoves(j, s, inputs(clock));
      FinishStep(j, s', inputs, clock + 1);
      FailureAlarms(j, s', inputs, clock + 1, n, k);
    }
  }

  /**
    When step n of a run logs a failure, whatever it is, an entry of Mail.To is mailed
    the error if and only if this is no dry run, the mailer is made, and every letter
    up to and including theirs is accepted.
   */
  lemma ErrorMailIff(j: Job, s: State, inputs: nat -> Input, n: nat, k: nat)
    requires s.ctl.pc.Idle? && FailsIn(j, s, inputs, 0, n)
    requires k < |j.config.mail.to| && j.config.mail.to[k] !in j.config.mail.to[..k]
    ensures Delivered(j.config.mail.to[k], ErrorMail) in RunOnce(j, s, inputs).ctl.run
       <==> !j.dryRun && inputs(n + 1).reply.mailer && forall i | n + 2 <= i <= n + 2 + k :: inputs(i).sent
  {
    FailureAlarms(j, s, inputs, 0, n, k);
  }

  /** A page that cannot be fetched or processed, other than by an invalid response. */
  lemma ProcessErrorMailIff(j: Job, s: State, inputs: nat -> Input, k: nat)
    requires s.ctl.pc.Idle?
    requires var fetched := inputs(0).reply.fetched;
             fetched == Err(StageFailed) || fetched == Err(Cancelled) || fetched == Err(Transport(false))
    requires k < |j.config.mail.to| && j.config.mail.to[k] !in j.config.mail.to[..k]
    ensures Delivered(j.config.mail.to[k], ErrorMail) in RunOnce(j, s, inputs).ctl.run
       <==> !j.dryRun && inputs(1).reply.mailer && forall i | 2 <= i <= 2 + k :: inputs(i).sent
  {
    FetchMoves(j, s, inputs(0));
    ErrorMailIff(j, s, inputs, 0, k);
  }

  /** The branch for time-outs, if it were reached, would leave no trace. */
  lemma TransportTimeoutIsSilent(j: Job, s: State, inputs: nat -> Input)
    requires s.ctl.pc.Idle? && inputs(0).reply.fetched == Err(Transport(true))
    ensures RunOnce(j, s, inputs).ctl.run == [] && RunOnce(j, s, inputs).cell == s.cell
  {
    FetchMoves(j, s, inputs(0));
  }

  // ---- every failure has its step ----

  lemma {:induction false} FailureHasStep(j: Job, s: State, inputs: nat -> Input, clock: nat) returns (n: nat)
    requires Failed in Finish(j, Moves(j, s, inputs(clock)), inputs, clock + 1).ctl.run
    ensures clock <= n && FailsIn(j, s, inputs, clock, n)
    decreases Rank(j, Moves(j, s, inputs(clock)).ctl.pc)
  {
    var s' := Moves(j, s, inputs(clock));
    if Failed in s'.ctl.run {
      n := clock;
    } else {
      FinishStep(j, s', inputs, clock + 1);
      RankDrops(j, s'.ctl.pc, ServeCell(s'.cell, RequestAt(s'.ctl.pc), inputs(clock + 1).reply.dbFault).0,
                inputs(clock + 1));
      n := FailureHasStep(j, s', inputs, clock + 1);
    }
  }

  lemma {:induction false} StepIsLogged(j: Job, s: State, inputs: nat -> Input, clock: nat, n: nat)
    requires clock <= n && FailsIn(j, s, inputs, clock, n)
    ensures Failed in Finish(j, Moves(j, s, inputs(clock)), inputs, clock + 1).ctl.run
    decreases n - clock
  {
    var s' := Moves(j, s, inputs(clock));
    if clock == n {
      FinishGrows(j, s', inputs, clock + 1);
      FailureStays(s'.ctl.run, Finish(j, s', inputs, clock + 1).ctl.run);
    } else {
      FinishStep(j, s', inputs, clock + 1);
      StepIsLogged(j, s', inputs, clock + 1, n);
    }
  }

  ghost predicate IsFirstEntry(tos: seq<string>, k: nat) {
    k < |tos| && tos[k] !in tos[..k]
  }

  ghost predicate ErrorMailed(j: Job, inputs: nat -> Input, log: seq<Event>, n: nat, k: nat)
    requires k < |j.config.mail.to|
  {
    Delivered(j.config.mail.to[k], ErrorMail) in log
    <==> !j.dryRun && inputs(n + 1).reply.mailer && forall i | n + 2 <= i <= n + 2 + k :: inputs(i).sent
  }

  ghost predicate SomeStepFails(j: Job, s: State, inputs: nat -> Input) {
    exists n: nat :: FailsIn(j, s, inputs, 0, n)
  }

  /** What the log of a run from s says about its failure. */
  ghost predicate FailureIsMailed(j: Job, s: State, inputs: nat -> Input, log: seq<Event>) {
    && (Failed in log <==> SomeStepFails(j, s, inputs))
    && (forall n: nat, k: nat | FailsIn(j, s, inputs, 0, n) && IsFirstEntry(j.config.mail.to, k) ::
          ErrorMailed(j, inputs, log, n, k))
    && (Failed !in log ==> forall to :: Delivered(to, ErrorMail) !in log)
  }

  lemma {:induction false} FinishKeepsInv(j: Job, s: State, inputs: nat -> Input, clock: nat)
    requires Inv(j, s)
    ensures Inv(j, Finish(j, s, inputs, clock)) && Finish(j, s, inputs, clock).ctl.pc.Idle?
    decreases Rank(j, s.ctl.pc)
  {
    if !s.ctl.pc.Idle? {
      FinishStep(j, s, inputs, clock);
      MovesKeepsInv(j, s, inputs(clock));
      RankDrops(j, s.ctl.pc, ServeCell(s.cell, RequestAt(s.ctl.pc), inputs(clock).reply.dbFault).0, inputs(clock));
      FinishKeepsInv(j, Moves(j, s, inputs(clock)), inputs, clock + 1);
    }
  }

  lemma LoggedIffStep(j: Job, s: State, inputs: nat -> Input)
    ensures Failed in RunOnce(j, s, inputs).ctl.run <==> SomeStepFails(j, s, inputs)
  {
    if Failed in RunOnce(j, s, inputs).ctl.run {
      var n := FailureHasStep(j, s, inputs, 0);
    }
    if n: nat :| FailsIn(j, s, inputs, 0, n) {
      StepIsLogged(j, s, inputs, 0, n);
    }
  }

  lemma NoFailureNoMail(j: Job, s: State, inputs: nat -> Input, to: string)
    requires s.ctl.pc.Idle? && Failed !in RunOnce(j, s, inputs).ctl.run
    ensures Delivered(to, ErrorMail) !in RunOnce(j, s, inputs).ctl.run
  {
    var end := RunOnce(j, s, inputs);
    BeginKeepsInv(j, s, inputs(0));
    FinishKeepsInv(j, Moves(j, s, inputs(0)), inputs, 1);
    WellEndedMails(j, end.ctl.start, end.cell, end.ctl.run, to);
  }

  /** A run that logs a failure mails it to Mail.To, as far as the mail server allows; no other run mails an error. */
  lemma RunMailsItsFailure(j: Job, s: State, inputs: nat -> Input)
    requires s.ctl.pc.Idle?
    ensures FailureIsMailed(j, s, inputs, RunOnce(j, s, inputs).ctl.run)
  {
    var log := RunOnce(j, s, inputs).ctl.run;
    LoggedIffStep(j, s, inputs);
    if Failed !in log {
      forall to ensures Delivered(to, ErrorMail) !in log {
        NoFailureNoMail(j, s, inputs, to);
      }
    }
    forall n: nat, k: nat | FailsIn(j, s, inputs, 0, n) && IsFirstEntry(j.config.mail.to, k)
      ensures ErrorMailed(j, inputs, log, n, k)
    {
      ErrorMailIff(j, s, inputs, n, k);
    }
  }
}
