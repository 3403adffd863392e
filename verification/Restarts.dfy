/** A watch's history across restarts of the program. */
module Restarts {
  import opened Basics
  import opened Config
  import opened Protocol
  import opened Runs
  import opened Shared
  import Db = Database

  /**
    One life of the program: reconciliation with the configured watches, cut short
    by an error after some rows or not, and then the turns of the jobs until the
    process ends, at any point of any run.
   */
  datatype Session = Session(
    watches: seq<WatchConfig>,
    cutShort: Option<nat>,
    jobs: map<Key, Job>,
    schedule: seq<Turn>)

  /** A reconciliation cut short ends the program before any job exists. */
  ghost predicate SessionOk(s: Session) {
    && Scheduled(s.jobs, s.schedule)
    && (s.cutShort.Some? ==> s.jobs == map[])
  }

  function Reconciled(t: Db.Table, s: Session): Db.Table {
    match s.cutShort
    case None => Db.Kept(t, s.watches)
    case Some(n) => Db.HalfKept(t, s.watches, if n < |t| then n else |t|)
  }

  ghost function EndOf(t: Db.Table, s: Session): System
    requires SessionOk(s)
  {
    SystemRun(s.jobs, Start(s.jobs, Reconciled(t, s)), s.schedule)
  }

  /** What the watch of this key did in the session. */
  ghost function TraceIn(t: Db.Table, s: Session, key: Key): seq<Event>
    requires SessionOk(s)
  {
    if key in s.jobs then EndOf(t, s).locals[key].ctl.trace else []
  }

  ghost predicate AllOk(sessions: seq<Session>) {
    forall i | 0 <= i < |sessions| :: SessionOk(sessions[i])
  }

  ghost function TableAfter(t: Db.Table, sessions: seq<Session>): Db.Table
    requires AllOk(sessions)
  {
    if sessions == [] then t
    else
      var n := |sessions| - 1;
      EndOf(TableAfter(t, sessions[..n]), sessions[n]).table
  }

  ghost function TraceOf(t: Db.Table, sessions: seq<Session>, key: Key): seq<Event>
    requires AllOk(sessions)
  {
    if sessions == [] then []
    else
      var n := |sessions| - 1;
      TraceOf(t, sessions[..n], key) + TraceIn(TableAfter(t, sessions[..n]), sessions[n], key)
  }

  lemma ReconciledKeeps(t: Db.Table, s: Session, key: Key)
    requires Db.Valid(t) && Db.Configured(key, s.watches)
    ensures Db.Valid(Reconciled(t, s)) && Db.Contents(Reconciled(t, s), key) == Db.Contents(t, key)
  {
    match s.cutShort {
      case None =>
        Db.KeptValid(t, s.watches);
        Db.KeptSelect(t, s.watches, key);
      case Some(n) =>
        Db.HalfKeptSelect(t, s.watches, if n < |t| then n else |t|, key);
    }
  }

  /** A key without a job keeps its row in every interleaving of the others. */
  lemma {:induction false} NoJobNoChange(jobs: map<Key, Job>, g: System, schedule: seq<Turn>, key: Key)
    requires SystemInv(jobs, g) && Scheduled(jobs, schedule) && key !in jobs
    ensures Db.Select(SystemRun(jobs, g, schedule).table, key) == Db.Select(g.table, key)
  {
    if schedule != [] {
      var n := |schedule| - 1;
      NoJobNoChange(jobs, g, schedule[..n], key);
      SystemRunKeepsInv(jobs, g, schedule[..n]);
      OtherStep(jobs, SystemRun(jobs, g, schedule[..n]), schedule[n].key, schedule[n].reply, key);
    }
  }

  lemma ReconciledValid(t: Db.Table, s: Session)
    requires Db.Valid(t)
    ensures Db.Valid(Reconciled(t, s))
  {
    match s.cutShort {
      case None => Db.KeptValid(t, s.watches);
      case Some(n) => Db.HalfKeptValid(t, s.watches, if n < |t| then n else |t|);
    }
  }

  lemma EndValid(t: Db.Table, s: Session)
    requires Db.Valid(t) && SessionOk(s)
    ensures Db.Valid(EndOf(t, s).table)
  {
    ReconciledValid(t, s);
    StartInv(s.jobs, Reconciled(t, s));
    SystemRunKeepsInv(s.jobs, Start(s.jobs, Reconciled(t, s)), s.schedule);
  }

  /** A job's session is one history of that job. */
  lemma SessionIsRun(t: Db.Table, s: Session, key: Key)
    requires Db.Valid(t) && SessionOk(s) && key in s.jobs
    ensures TraceIn(t, s, key)
         == Run(s.jobs[key], Fresh(Db.Contents(Reconciled(t, s), key)), RepliesTo(key, s.schedule)).ctl.trace
  {
    var t0 := Reconciled(t, s);
    ReconciledValid(t, s);
    StartInv(s.jobs, t0);
    Projection(s.jobs, Start(s.jobs, t0), s.schedule, key);
  }

  lemma {:induction false} TableAfterValid(t: Db.Table, sessions: seq<Session>)
    requires Db.Valid(t) && AllOk(sessions)
    ensures Db.Valid(TableAfter(t, sessions))
  {
    if sessions != [] {
      var n := |sessions| - 1;
      TableAfterValid(t, sessions[..n]);
      EndValid(TableAfter(t, sessions[..n]), sessions[n]);
    }
  }

  /** One session continues the chain of contents. */
  lemma SessionExplains(t: Db.Table, s: Session, key: Key)
    requires Db.Valid(t) && SessionOk(s) && Db.Configured(key, s.watches)
    ensures Db.Valid(EndOf(t, s).table)
    ensures Explains(Db.Contents(t, key), TraceIn(t, s, key), Db.Contents(EndOf(t, s).table, key))
  {
    var t0 := Reconciled(t, s);
    var g0 := Start(s.jobs, t0);
    ReconciledKeeps(t, s, key);
    StartInv(s.jobs, t0);
    SystemRunKeepsInv(s.jobs, g0, s.schedule);
    if key in s.jobs {
      Projection(s.jobs, g0, s.schedule, key);
      HistoryExplains(s.jobs[key], Db.Contents(t0, key), RepliesTo(key, s.schedule));
    } else {
      NoJobNoChange(s.jobs, g0, s.schedule, key);
    }
  }

  lemma {:induction false} ExplainsAppend(a: Option<Text>, xs: seq<Event>, b: Option<Text>, ys: seq<Event>,
                                          c: Option<Text>)
    requires Explains(a, xs, b) && Explains(b, ys, c)
    ensures Explains(a, xs + ys, c)
    decreases |ys|
  {
    if ys == [] {
      assert xs + ys == xs;
    } else {
      var n := |ys| - 1;
      assert (xs + ys)[..|xs| + n] == xs + ys[..n];
      match ys[n] {
        case Inserted(_) => ExplainsAppend(a, xs, b, ys[..n], None);
        case Committed(from, _) => ExplainsAppend(a, xs, b, ys[..n], Some(from));
        case _ => ExplainsAppend(a, xs, b, ys[..n], c);
      }
    }
  }

  /**
    Across any number of restarts that keep a watch configured, disabled or not, and
    wherever each process was when it ended, the contents form one chain: each commit
    starts where the one before it ended, and the last one is the row.
   */
  lemma {:induction false} RestartsExplain(t: Db.Table, sessions: seq<Session>, key: Key)
    requires Db.Valid(t) && AllOk(sessions)
    requires forall i | 0 <= i < |sessions| :: Db.Configured(key, sessions[i].watches)
    ensures Db.Valid(TableAfter(t, sessions))
    ensures Explains(Db.Contents(t, key), TraceOf(t, sessions, key), Db.Contents(TableAfter(t, sessions), key))
  {
    if sessions != [] {
      var n := |sessions| - 1;
      var mid := TableAfter(t, sessions[..n]);
      RestartsExplain(t, sessions[..n], key);
      SessionExplains(mid, sessions[n], key);
      ExplainsAppend(Db.Contents(t, key), TraceOf(t, sessions[..n], key), Db.Contents(mid, key),
                     TraceIn(mid, sessions[n], key), Db.Contents(TableAfter(t, sessions), key));
    }
  }

  // ---- mail before commit ----

  /**
    Entry i of the whole log was written in this session, by its own job; if it stores
    a new content and this job is no dry run, the complete announcement of exactly
    this change comes directly before it.
   */
  ghost predicate WrittenIn(s: Session, key: Key, before: seq<Event>, log: seq<Event>, whole: seq<Event>, i: nat) {
    && before + log <= whole
    && |before| <= i < |before + log|
    && key in s.jobs
    && (!s.jobs[key].dryRun ==> AnnouncedBefore(s.jobs[key], log, i - |before|))
  }

  ghost predicate AnnouncedIn(t: Db.Table, sessions: seq<Session>, key: Key, whole: seq<Event>, i: nat, k: nat)
    requires AllOk(sessions) && k < |sessions|
  {
    WrittenIn(sessions[k], key, TraceOf(t, sessions[..k], key), TraceIn(TableAfter(t, sessions[..k]), sessions[k], key),
              whole, i)
  }

  lemma AnnouncedInSession(t: Db.Table, s: Session, key: Key, i: nat)
    requires Db.Valid(t) && SessionOk(s) && i < |TraceIn(t, s, key)|
    ensures key in s.jobs
    ensures !s.jobs[key].dryRun ==> AnnouncedBefore(s.jobs[key], TraceIn(t, s, key), i)
  {
    SessionIsRun(t, s, key);
    if !s.jobs[key].dryRun {
      CommitsAnnounced(s.jobs[key], Db.Contents(Reconciled(t, s), key), RepliesTo(key, s.schedule), i);
    }
  }

  lemma TraceOfNext(t: Db.Table, sessions: seq<Session>, key: Key, n: nat)
    requires AllOk(sessions) && n < |sessions|
    ensures TraceOf(t, sessions[..n + 1], key)
         == TraceOf(t, sessions[..n], key) + TraceIn(TableAfter(t, sessions[..n]), sessions[n], key)
  {
    assert sessions[..n + 1][..n] == sessions[..n];
  }

  lemma WrittenLast(mid: Db.Table, s: Session, key: Key, before: seq<Event>, log: seq<Event>, whole: seq<Event>, i: nat)
    requires Db.Valid(mid) && SessionOk(s) && log == TraceIn(mid, s, key)
    requires before + log <= whole && |before| <= i < |before + log|
    ensures WrittenIn(s, key, before, log, whole, i)
  {
    AnnouncedInSession(mid, s, key, i - |before|);
  }

  lemma PrefixOfBoth<T>(x: seq<T>, y: seq<T>, whole: seq<T>)
    requires x + y <= whole
    ensures x <= whole
  {
  }

  lemma {:induction false} AnnouncedUpTo(t: Db.Table, sessions: seq<Session>, key: Key, whole: seq<Event>, i: nat,
                                         n: nat)
    requires Db.Valid(t) && AllOk(sessions) && n <= |sessions|
    requires TraceOf(t, sessions[..n], key) <= whole && i < |TraceOf(t, sessions[..n], key)|
    ensures exists k | 0 <= k < |sessions| :: AnnouncedIn(t, sessions, key, whole, i, k)
  {
    if n == 0 {
      assert false;
    } else {
      var m := n - 1;
      var before, mid := TraceOf(t, sessions[..m], key), TableAfter(t, sessions[..m]);
      TraceOfNext(t, sessions, key, m);
      PrefixOfBoth(before, TraceIn(mid, sessions[m], key), whole);
      if i < |before| {
        AnnouncedUpTo(t, sessions, key, whole, i, m);
      } else {
        TableAfterValid(t, sessions[..m]);
        WrittenLast(mid, sessions[m], key, before, TraceIn(mid, sessions[m], key), whole, i);
        assert AnnouncedIn(t, sessions, key, whole, i, m);
      }
    }
  }

  /** Across any number of restarts, whatever is configured, each change is announced before it is stored. */
  lemma RestartsAnnounce(t: Db.Table, sessions: seq<Session>, key: Key, i: nat)
    requires Db.Valid(t) && AllOk(sessions) && i < |TraceOf(t, sessions, key)|
    ensures exists k | 0 <= k < |sessions| :: AnnouncedIn(t, sessions, key, TraceOf(t, sessions, key), i, k)
  {
    assert sessions[..|sessions|] == sessions;
    AnnouncedUpTo(t, sessions, key, TraceOf(t, sessions, key), i, |sessions|);
  }
}
