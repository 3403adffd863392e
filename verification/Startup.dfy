/** What run does around the jobs: reconcile, schedule, pick the first runners, or run each job once. */
module Startup {
  import opened Basics
  import opened Config
  import opened Watch
  import opened Protocol
  import opened Completion
  import opened App
  import Db = Database

  // ---- cron mode ----

  /** The enabled watches whose task the scheduler took, in order; a task's id is its position. */
  function Tasks(ws: seq<WatchConfig>, added: nat -> bool): seq<WatchConfig> {
    if ws == [] then []
    else
      var n := |ws| - 1;
      Tasks(ws[..n], added) + (if !ws[n].disabled && added(n) then [ws[n]] else [])
  }

  lemma TasksSnoc(ws: seq<WatchConfig>, w: WatchConfig, added: nat -> bool)
    ensures Tasks(ws + [w], added) == Tasks(ws, added) + (if !w.disabled && added(|ws|) then [w] else [])
  {
    var all := ws + [w];
    assert all[..|ws|] == ws && all[|ws|] == w && |all| - 1 == |ws|;
  }

  ghost predicate IsNew(w: WatchConfig, newEntries: seq<WatchConfig>) {
    exists e | e in newEntries :: KeyOf(e) == KeyOf(w)
  }

  /** Task ids of the tasks that are new, with their names. */
  ghost predicate AreFirst(first: map<nat, string>, tasks: seq<WatchConfig>, newEntries: seq<WatchConfig>) {
    && (forall id: nat :: id in first <==> id < |tasks| && IsNew(tasks[id], newEntries))
    && (forall id: nat | id in first :: id < |tasks| && first[id] == tasks[id].name)
  }

  method FindNew(w: WatchConfig, newEntries: seq<WatchConfig>) returns (found: bool)
    ensures found <==> IsNew(w, newEntries)
  {
    for i := 0 to |newEntries|
      invariant forall k | 0 <= k < i :: KeyOf(newEntries[k]) != KeyOf(w)
    {
      if newEntries[i].name == w.name && newEntries[i].url == w.url {
        assert newEntries[i] in newEntries && KeyOf(newEntries[i]) == KeyOf(w);
        return true;
      }
    }
    return false;
  }

  lemma OneMoreTask(first: map<nat, string>, tasks: seq<WatchConfig>, newEntries: seq<WatchConfig>, w: WatchConfig)
    requires AreFirst(first, tasks, newEntries)
    ensures AreFirst(if IsNew(w, newEntries) then first[|tasks| := w.name] else first, tasks + [w], newEntries)
  {
    var all := tasks + [w];
    var first' := if IsNew(w, newEntries) then first[|tasks| := w.name] else first;
    forall id: nat
      ensures id in first' <==> id < |all| && IsNew(all[id], newEntries)
      ensures id in first' ==> id < |all| && first'[id] == all[id].name
    {
      if id < |tasks| {
        assert all[id] == tasks[id];
        assert id in first' <==> id in first;
      }
    }
  }

  lemma OneMoreWatch(ws: seq<WatchConfig>, i: nat, added: nat -> bool)
    requires i < |ws|
    ensures Tasks(ws[..i + 1], added)
         == Tasks(ws[..i], added) + (if !ws[i].disabled && added(i) then [ws[i]] else [])
  {
    assert ws[..i + 1] == ws[..i] + [ws[i]];
    TasksSnoc(ws[..i], ws[i], added);
  }

  /** The loop of run in cron mode; a client that cannot be made ends the program. */
  method ScheduleAll(ws: seq<WatchConfig>, newEntries: seq<WatchConfig>, clientMade: nat -> bool, added: nat -> bool)
    returns (r: Option<(seq<WatchConfig>, map<nat, string>)>)
    ensures r.None? <==> exists i | 0 <= i < |ws| :: !ws[i].disabled && !clientMade(i)
    ensures r.Some? ==> r.value.0 == Tasks(ws, added) && AreFirst(r.value.1, r.value.0, newEntries)
  {
    var tasks: seq<WatchConfig> := [];
    var first: map<nat, string> := map[];
    for i := 0 to |ws|
      invariant tasks == Tasks(ws[..i], added)
      invariant AreFirst(first, tasks, newEntries)
      invariant forall k | 0 <= k < i :: ws[k].disabled || clientMade(k)
    {
      var wc := ws[i];
      OneMoreWatch(ws, i, added);
      if !wc.disabled {
        if !clientMade(i) {
          return None;
        }
        if added(i) {
          OneMoreTask(first, tasks, newEntries, wc);
          var isNew := FindNew(wc, newEntries);
          if isNew {
            first := first[|tasks| := wc.name];
          }
          tasks := tasks + [wc];
        }
      }
    }
    assert ws[..|ws|] == ws;
    return Some((tasks, first));
  }

  lemma {:induction false} MissingMember(ws: seq<WatchConfig>, t: Db.Table, w: WatchConfig)
    ensures w in Db.Missing(ws, t) <==> w in ws && Db.Select(t, KeyOf(w)).None?
  {
    if ws != [] {
      MissingMember(ws[1..], t, w);
      assert w in ws <==> w == ws[0] || w in ws[1..];
    }
  }

  lemma NewMeansNoRow(ws: seq<WatchConfig>, t: Db.Table, w: WatchConfig)
    requires w in ws
    ensures IsNew(w, Db.Missing(ws, t)) <==> Db.Select(t, KeyOf(w)).None?
  {
    MissingMember(ws, t, w);
    if IsNew(w, Db.Missing(ws, t)) {
      var e :| e in Db.Missing(ws, t) && KeyOf(e) == KeyOf(w);
      MissingMember(ws, t, e);
    }
  }

  lemma {:induction false} TasksConfigured(ws: seq<WatchConfig>, added: nat -> bool)
    ensures forall w | w in Tasks(ws, added) :: w in ws && !w.disabled
  {
    if ws != [] {
      TasksConfigured(ws[..|ws| - 1], added);
    }
  }

  /** Task k is the watch at position at[k], which is enabled and taken by the scheduler. */
  ghost predicate TaskAt(ws: seq<WatchConfig>, added: nat -> bool, at: seq<nat>, tasks: seq<WatchConfig>, k: nat)
    requires k < |at| && k < |tasks|
  {
    at[k] < |ws| && !ws[at[k]].disabled && added(at[k]) && tasks[k] == ws[at[k]]
  }

  ghost predicate HasTask(ws: seq<WatchConfig>, added: nat -> bool, at: seq<nat>, i: nat)
    requires i < |ws|
  {
    !ws[i].disabled && added(i) ==> i in at
  }

  /** The tasks are the watches at these ascending positions, and no enabled watch that was taken is left out. */
  ghost predicate TasksStandAt(ws: seq<WatchConfig>, added: nat -> bool, at: seq<nat>, tasks: seq<WatchConfig>) {
    && |at| == |tasks|
    && (forall k {:trigger TaskAt(ws, added, at, tasks, k)} | 0 <= k < |at| :: TaskAt(ws, added, at, tasks, k))
    && (forall k, l | 0 <= k < l < |at| :: at[k] < at[l])
    && (forall i {:trigger HasTask(ws, added, at, i)} | 0 <= i < |ws| :: HasTask(ws, added, at, i))
  }

  lemma OneMorePosition(ws: seq<WatchConfig>, w: WatchConfig, added: nat -> bool, at: seq<nat>,
                        tasks: seq<WatchConfig>) returns (at': seq<nat>)
    requires TasksStandAt(ws, added, at, tasks)
    ensures TasksStandAt(ws + [w], added, at', tasks + (if !w.disabled && added(|ws|) then [w] else []))
  {
    var n, all := |ws|, ws + [w];
    var taken := !w.disabled && added(n);
    at' := if taken then at + [n] else at;
    var tasks' := tasks + (if taken then [w] else []);
    forall k | 0 <= k < |at| ensures at[k] < n && TaskAt(all, added, at', tasks', k) {
      assert TaskAt(ws, added, at, tasks, k);
    }
    forall k | 0 <= k < |at'| ensures TaskAt(all, added, at', tasks', k) {
      if k == |at| {
        assert at'[k] == n && tasks'[k] == w;
      }
    }
    forall i | 0 <= i < |all| ensures HasTask(all, added, at', i) {
      if i < n {
        assert HasTask(ws, added, at, i);
      } else if taken {
        assert at'[|at|] == n;
      }
    }
  }

  /** The scheduler's tasks, by their positions in the configuration. */
  lemma {:induction false} TasksArePlaced(ws: seq<WatchConfig>, added: nat -> bool) returns (at: seq<nat>)
    ensures TasksStandAt(ws, added, at, Tasks(ws, added))
  {
    if ws == [] {
      at := [];
    } else {
      var init, w := ws[..|ws| - 1], ws[|ws| - 1];
      var before := TasksArePlaced(init, added);
      at := OneMorePosition(init, w, added, before, Tasks(init, added));
      TasksSnoc(init, w, added);
      assert init + [w] == ws;
    }
  }

  /** With distinct keys no watch has two tasks. */
  lemma {:induction false} TasksDistinct(ws: seq<WatchConfig>, added: nat -> bool)
    requires KeysDistinct(ws)
    ensures KeysDistinct(Tasks(ws, added))
  {
    if ws != [] {
      var n := |ws| - 1;
      var init := Tasks(ws[..n], added);
      TasksDistinct(ws[..n], added);
      TasksConfigured(ws[..n], added);
      forall k | 0 <= k < |init| ensures KeyOf(init[k]) != KeyOf(ws[n]) {
        assert init[k] in ws[..n];
        var i :| 0 <= i < n && ws[i] == init[k];
        assert KeyOf(ws[i]) != KeyOf(ws[n]);
      }
    }
  }

  /**
    Start-up in cron mode: the jobs run at once are exactly the scheduled, enabled
    watches without a row, and no watch is among them twice. When it fails, only
    unconfigured rows are gone.
   */
  method StartCron(db: Db.Database, ws: seq<WatchConfig>, faults: Db.Faults, clientMade: nat -> bool,
                   added: nat -> bool) returns (r: Option<(seq<WatchConfig>, map<nat, string>)>)
    requires Db.Valid(db.rows) && KeysDistinct(ws)
    modifies db
    ensures Db.Valid(db.rows)
    ensures r.None? <==>
              || (exists i | 0 <= i < |ws| :: faults.select(i))
              || faults.selectAll
              || (exists n | 0 <= n < |old(db.rows)| ::
                    faults.delete(n) && forall w | w in ws :: Key(w.name, w.url) != old(db.rows)[n].key)
              || (exists i | 0 <= i < |ws| :: !ws[i].disabled && !clientMade(i))
    ensures r.None? ==> exists n | 0 <= n <= |old(db.rows)| :: db.rows == Db.HalfKept(old(db.rows), ws, n)
    ensures r.Some? ==>
              && db.rows == Db.Kept(old(db.rows), ws)
              && r.value.0 == Tasks(ws, added) && KeysDistinct(r.value.0)
              && forall id: nat :: id in r.value.1 <==>
                   id < |r.value.0| && Db.Select(old(db.rows), KeyOf(r.value.0[id])).None?
  {
    ghost var before := db.rows;
    Db.HalfKeptEnds(before, ws);
    var prepared := db.PrepareDatabase(ws, faults);
    if prepared.None? {
      assert Db.Valid(db.rows) by {
        var n :| 0 <= n <= |before| && db.rows == Db.HalfKept(before, ws, n);
        Db.HalfKeptValid(before, ws, n);
      }
      return None;
    }
    Db.KeptValid(before, ws);
    r := ScheduleAll(ws, prepared.value.0, clientMade, added);
    if r.Some? {
      TasksDistinct(ws, added);
      TasksConfigured(ws, added);
      forall id: nat | id < |r.value.0|
        ensures IsNew(r.value.0[id], prepared.value.0) <==> Db.Select(before, KeyOf(r.value.0[id])).None?
      {
        NewMeansNoRow(ws, before, r.value.0[id]);
      }
    }
  }

  // ---- once mode ----

  ghost predicate CanRun(app: App) {
    app.config.retry.count >= 1 && Aligned(app.config.compiledRetryOnMatch, app.config.retryOnMatch)
  }

  function JobFor(app: App, wc: WatchConfig): Job {
    app.JobOf(Built(wc))
  }

  /** The content after one run of the watch that started from `before`. */
  ghost function ContentAfter(app: App, wc: WatchConfig, before: Option<Text>, replies: nat -> Reply): Option<Text>
  {
    if wc.disabled then before
    else RunOnce(JobFor(app, wc), Fresh(before), Listening(JobFor(app, wc), replies)).cell
  }

  lemma RunOfWatch(app: App, wc: WatchConfig, before: Option<Text>, replies: nat -> Reply)
    ensures ContentAfter(app, wc, before, replies)
         == if wc.disabled then before
            else RunOnce(app.JobOf(Built(wc)), Fresh(before), Listening(app.JobOf(Built(wc)), replies)).cell
  {
  }

  /** The run of the watch that starts from `before` logs an error. */
  ghost predicate RunFails(app: App, wc: WatchConfig, before: Option<Text>, replies: nat -> Reply) {
    !wc.disabled && Failed in RunOnce(JobFor(app, wc), Fresh(before), Listening(JobFor(app, wc), replies)).ctl.run
  }

  ghost predicate FailsAt(app: App, ws: seq<WatchConfig>, before: Db.Table, replies: nat -> (nat -> Reply), i: nat)
    requires i < |ws|
  {
    RunFails(app, ws[i], Db.Contents(before, KeyOf(ws[i])), replies(i))
  }

  ghost predicate SomeRunFails(app: App, ws: seq<WatchConfig>, before: Db.Table, replies: nat -> (nat -> Reply), n: nat)
    requires n <= |ws|
  {
    exists i: nat {:trigger FailsAt(app, ws, before, replies, i)} | i < n :: FailsAt(app, ws, before, replies, i)
  }

  lemma OneMoreFails(app: App, ws: seq<WatchConfig>, before: Db.Table, replies: nat -> (nat -> Reply), n: nat)
    requires n < |ws|
    ensures SomeRunFails(app, ws, before, replies, n + 1)
       <==> SomeRunFails(app, ws, before, replies, n) || FailsAt(app, ws, before, replies, n)
  {
  }

  /** The content of watch i, when the first n have run. */
  ghost predicate ContentIs(app: App, wc: WatchConfig, before: Db.Table, now: Db.Table, replies: nat -> Reply,
                            i: nat, n: nat)
  {
    var content := Db.Contents(before, KeyOf(wc));
    Db.Contents(now, KeyOf(wc)) == if i < n then ContentAfter(app, wc, content, replies) else content
  }

  /** `flag` is set if it was set at first, or one of the first n runs has logged an error. */
  ghost predicate Remembered(app: App, ws: seq<WatchConfig>, before: Db.Table, replies: nat -> (nat -> Reply),
                             first: bool, flag: bool, n: nat)
    requires n <= |ws|
  {
    flag <==> first || SomeRunFails(app, ws, before, replies, n)
  }

  /** The first n watches have the content of their own run, the others and foreign rows are as before. */
  ghost predicate RanUpTo(app: App, ws: seq<WatchConfig>, before: Db.Table, now: Db.Table,
                          replies: nat -> (nat -> Reply), n: nat)
  {
    && (forall i: nat {:trigger ContentIs(app, ws[i], before, now, replies(i), i, n)} | i < |ws| ::
          ContentIs(app, ws[i], before, now, replies(i), i, n))
    && (forall key | !Db.Configured(key, ws) :: Db.Select(now, key) == Db.Select(before, key))
  }

  lemma SameContent(app: App, wc: WatchConfig, before: Db.Table, mid: Db.Table, now: Db.Table, replies: nat -> Reply,
                    i: nat, n: nat)
    requires Db.Select(now, KeyOf(wc)) == Db.Select(mid, KeyOf(wc)) && i != n
    requires ContentIs(app, wc, before, mid, replies, i, n)
    ensures ContentIs(app, wc, before, now, replies, i, n + 1)
  {
  }

  lemma OneMoreRan(app: App, ws: seq<WatchConfig>, before: Db.Table, mid: Db.Table, now: Db.Table,
                   replies: nat -> (nat -> Reply), n: nat)
    requires n < |ws| && KeysDistinct(ws)
    requires RanUpTo(app, ws, before, mid, replies, n)
    requires Db.Contents(now, KeyOf(ws[n])) == ContentAfter(app, ws[n], Db.Contents(mid, KeyOf(ws[n])), replies(n))
    requires forall key: Key | key != KeyOf(ws[n]) :: Db.Select(now, key) == Db.Select(mid, key)
    ensures RanUpTo(app, ws, before, now, replies, n + 1)
  {
    forall i: nat | i < |ws| ensures ContentIs(app, ws[i], before, now, replies(i), i, n + 1) {
      assert ContentIs(app, ws[i], before, mid, replies(i), i, n);
      if i != n {
        assert KeyOf(ws[if i < n then i else n]) != KeyOf(ws[if i < n then n else i]);
        SameContent(app, ws[i], before, mid, now, replies(i), i, n);
      }
    }
    forall key | !Db.Configured(key, ws) ensures Db.Select(now, key) == Db.Select(before, key) {
      assert ws[n] in ws;
    }
  }

  /** The first reply of the run is what Process makes of the network. */
  ghost predicate FetchedBy(app: App, wc: WatchConfig, net: Network, replies: nat -> Reply)
    requires CanRun(app)
  {
    replies(0).fetched == Processed(Built(wc), app.config, app.libs, net)
  }

  /** The turn of one watch, disabled or not. */
  method RunWatch(app: App, wc: WatchConfig, net: Network, replies: nat -> Reply)
    requires CanRun(app) && Db.Valid(app.db.rows) && FetchedBy(app, wc, net, replies)
    modifies app, app.db
    ensures Db.Valid(app.db.rows)
    ensures Db.Contents(app.db.rows, KeyOf(wc))
         == ContentAfter(app, wc, Db.Contents(old(app.db.rows), KeyOf(wc)), replies)
    ensures forall key: Key | key != KeyOf(wc) :: Db.Select(app.db.rows, key) == Db.Select(old(app.db.rows), key)
    ensures app.errorOccured
       <==> old(app.errorOccured) || RunFails(app, wc, Db.Contents(old(app.db.rows), KeyOf(wc)), replies)
  {
    if !wc.disabled {
      var w := New(wc);
      var _ := app.RunJob(w, net, replies);
    }
  }

  ghost predicate AllFetchedBy(app: App, ws: seq<WatchConfig>, nets: nat -> Network, replies: nat -> (nat -> Reply))
    requires CanRun(app)
  {
    forall i: nat {:trigger FetchedBy(app, ws[i], nets(i), replies(i))} | i < |ws| ::
      FetchedBy(app, ws[i], nets(i), replies(i))
  }

  lemma StillBefore(app: App, ws: seq<WatchConfig>, before: Db.Table, now: Db.Table, replies: nat -> (nat -> Reply),
                    n: nat)
    requires n < |ws| && RanUpTo(app, ws, before, now, replies, n)
    ensures Db.Contents(now, KeyOf(ws[n])) == Db.Contents(before, KeyOf(ws[n]))
  {
    assert ContentIs(app, ws[n], before, now, replies(n), n, n);
  }

  /** One turn of the loop of run in once mode. */
  method RunNext(app: App, ws: seq<WatchConfig>, nets: nat -> Network, replies: nat -> (nat -> Reply), n: nat,
                 ghost before: Db.Table, ghost first: bool)
    requires CanRun(app) && Db.Valid(app.db.rows) && KeysDistinct(ws) && n < |ws|
    requires AllFetchedBy(app, ws, nets, replies)
    requires RanUpTo(app, ws, before, app.db.rows, replies, n)
    requires Remembered(app, ws, before, replies, first, app.errorOccured, n)
    modifies app, app.db
    ensures Db.Valid(app.db.rows) && RanUpTo(app, ws, before, app.db.rows, replies, n + 1)
    ensures Remembered(app, ws, before, replies, first, app.errorOccured, n + 1)
  {
    ghost var mid := app.db.rows;
    StillBefore(app, ws, before, mid, replies, n);
    OneMoreFails(app, ws, before, replies, n);
    assert FetchedBy(app, ws[n], nets(n), replies(n));
    RunWatch(app, ws[n], nets(n), replies(n));
    OneMoreRan(app, ws, before, mid, app.db.rows, replies, n);
  }

  lemma NoneRan(app: App, ws: seq<WatchConfig>, t: Db.Table, replies: nat -> (nat -> Reply))
    ensures RanUpTo(app, ws, t, t, replies, 0)
  {
  }

  /** Nothing keeps watch i from its turn. */
  predicate Unhindered(ws: seq<WatchConfig>, clientMade: nat -> bool, cancelled: nat -> bool, i: nat)
    requires i < |ws|
  {
    ws[i].disabled || (clientMade(i) && !cancelled(i))
  }

  ghost predicate AllUnhindered(ws: seq<WatchConfig>, clientMade: nat -> bool, cancelled: nat -> bool, n: nat)
    requires n <= |ws|
  {
    forall i {:trigger Unhindered(ws, clientMade, cancelled, i)} | 0 <= i < n ::
      Unhindered(ws, clientMade, cancelled, i)
  }

  lemma UnhinderedMeans(ws: seq<WatchConfig>, clientMade: nat -> bool, cancelled: nat -> bool, n: nat)
    requires n <= |ws|
    ensures AllUnhindered(ws, clientMade, cancelled, n)
       <==> forall i | 0 <= i < n :: ws[i].disabled || (clientMade(i) && !cancelled(i))
  {
    if forall i | 0 <= i < n :: ws[i].disabled || (clientMade(i) && !cancelled(i)) {
      forall i | 0 <= i < n ensures Unhindered(ws, clientMade, cancelled, i) {
      }
    }
    if AllUnhindered(ws, clientMade, cancelled, n) {
      forall i | 0 <= i < n ensures ws[i].disabled || (clientMade(i) && !cancelled(i)) {
        assert Unhindered(ws, clientMade, cancelled, i);
      }
    }
  }

  lemma OneMoreUnhindered(ws: seq<WatchConfig>, clientMade: nat -> bool, cancelled: nat -> bool, n: nat)
    requires n < |ws| && AllUnhindered(ws, clientMade, cancelled, n) && Unhindered(ws, clientMade, cancelled, n)
    ensures AllUnhindered(ws, clientMade, cancelled, n + 1)
  {
  }

  /** A client cannot be made, or else the context is found to be done. */
  method CheckTurn(app: App, ws: seq<WatchConfig>, clientMade: nat -> bool, cancelled: nat -> bool, n: nat)
    returns (ok: bool)
    requires n < |ws|
    modifies app`errorOccured
    ensures ok <==> Unhindered(ws, clientMade, cancelled, n)
    ensures app.errorOccured <==> old(app.errorOccured) || (!ok && clientMade(n))
  {
    if ws[n].disabled {
      return true;
    }
    if !clientMade(n) {
      return false;
    }
    if cancelled(n) {
      app.errorOccured := true;
      return false;
    }
    return true;
  }

  /** The first n watches were not kept from their turn, and this is what their runs have left. */
  ghost predicate TurnsTaken(app: App, ws: seq<WatchConfig>, before: Db.Table, now: Db.Table,
                             replies: nat -> (nat -> Reply), clientMade: nat -> bool, cancelled: nat -> bool, n: nat)
    requires n <= |ws|
  {
    RanUpTo(app, ws, before, now, replies, n) && AllUnhindered(ws, clientMade, cancelled, n)
  }

  /** What the turns have left of watch i: its own run, nothing if it is disabled, and nothing before its turn. */
  lemma TurnsLeave(app: App, ws: seq<WatchConfig>, before: Db.Table, now: Db.Table, replies: nat -> (nat -> Reply),
                   clientMade: nat -> bool, cancelled: nat -> bool, n: nat, i: nat)
    requires n <= |ws| && i < |ws| && TurnsTaken(app, ws, before, now, replies, clientMade, cancelled, n)
    ensures i < n ==> ws[i].disabled || (clientMade(i) && !cancelled(i))
    ensures var key, j := Key(ws[i].name, ws[i].url), app.JobOf(Built(ws[i]));
            var was := Db.Contents(before, key);
            Db.Contents(now, key) == if i < n && !ws[i].disabled
                                     then RunOnce(j, Fresh(was), Listening(j, replies(i))).cell else was
  {
    var wc := ws[i];
    UnhinderedMeans(ws, clientMade, cancelled, n);
    assert ContentIs(app, wc, before, now, replies(i), i, n);
    assert KeyOf(wc) == Key(wc.name, wc.url) && JobFor(app, wc) == app.JobOf(Built(wc));
    RunOfWatch(app, wc, Db.Contents(before, KeyOf(wc)), replies(i));
  }

  /** One turn of the loop of run in once mode. */
  method TakeTurn(app: App, ws: seq<WatchConfig>, nets: nat -> Network, replies: nat -> (nat -> Reply),
                  clientMade: nat -> bool, cancelled: nat -> bool, n: nat, ghost before: Db.Table, ghost first: bool)
    returns (ok: bool)
    requires CanRun(app) && Db.Valid(app.db.rows) && KeysDistinct(ws) && n < |ws|
    requires AllFetchedBy(app, ws, nets, replies)
    requires TurnsTaken(app, ws, before, app.db.rows, replies, clientMade, cancelled, n)
    requires Remembered(app, ws, before, replies, first, app.errorOccured, n)
    modifies app, app.db
    ensures Db.Valid(app.db.rows) && (ok <==> Unhindered(ws, clientMade, cancelled, n))
    ensures TurnsTaken(app, ws, before, app.db.rows, replies, clientMade, cancelled, if ok then n + 1 else n)
    ensures ok ==> Remembered(app, ws, before, replies, first, app.errorOccured, n + 1)
    ensures !ok ==> (app.errorOccured <==> first || SomeRunFails(app, ws, before, replies, n) || clientMade(n))
  {
    ok := CheckTurn(app, ws, clientMade, cancelled, n);
    if ok {
      OneMoreUnhindered(ws, clientMade, cancelled, n);
      RunNext(app, ws, nets, replies, n, before, first);
    }
  }

  /**
    Once mode runs the enabled jobs one after the other, until one is cancelled or no
    client can be made for it. `ran` watches had their turn: they end with the content
    one run of their own gives, as if they had been alone, and the others are as they
    were. Errors are remembered: that a run has logged one, and that the rest was
    cancelled.
   */
  method RunAllOnce(app: App, ws: seq<WatchConfig>, nets: nat -> Network, replies: nat -> (nat -> Reply),
                    clientMade: nat -> bool, cancelled: nat -> bool)
    returns (ok: bool, ghost ran: nat)
    requires CanRun(app) && Db.Valid(app.db.rows) && KeysDistinct(ws)
    requires AllFetchedBy(app, ws, nets, replies)
    modifies app, app.db
    ensures Db.Valid(app.db.rows)
    ensures ran <= |ws| && (ok <==> ran == |ws|)
    ensures TurnsTaken(app, ws, old(app.db.rows), app.db.rows, replies, clientMade, cancelled, ran)
    ensures !ok ==> !ws[ran].disabled && (!clientMade(ran) || cancelled(ran))
    ensures app.errorOccured
       <==> old(app.errorOccured) || SomeRunFails(app, ws, old(app.db.rows), replies, ran) || (!ok && clientMade(ran))
  {
    ghost var before, first := app.db.rows, app.errorOccured;
    NoneRan(app, ws, before, replies);
    ran := 0;
    var n := 0;
    while n < |ws|
      invariant n == ran <= |ws|
      invariant Db.Valid(app.db.rows)
      invariant TurnsTaken(app, ws, before, app.db.rows, replies, clientMade, cancelled, n)
      invariant Remembered(app, ws, before, replies, first, app.errorOccured, n)
    {
      ok := TakeTurn(app, ws, nets, replies, clientMade, cancelled, n, before, first);
      if !ok {
        return;
      }
      n := n + 1;
      ran := n;
    }
    ok := true;
  }

  lemma SameContents(ws: seq<WatchConfig>, t: Db.Table, i: nat)
    requires Db.Valid(t) && i < |ws|
    ensures Db.Contents(Db.Kept(t, ws), KeyOf(ws[i])) == Db.Contents(t, KeyOf(ws[i]))
  {
    assert ws[i] in ws;
    Db.KeptSelect(t, ws, KeyOf(ws[i]));
  }

  /** The runs fail before the reconciliation as after it. */
  lemma SameRunsFail(app: App, ws: seq<WatchConfig>, t: Db.Table, replies: nat -> (nat -> Reply))
    requires Db.Valid(t)
    ensures SomeRunFails(app, ws, Db.Kept(t, ws), replies, |ws|) <==> SomeRunFails(app, ws, t, replies, |ws|)
  {
    forall i: nat | i < |ws|
      ensures FailsAt(app, ws, Db.Kept(t, ws), replies, i) <==> FailsAt(app, ws, t, replies, i)
    {
      SameContents(ws, t, i);
    }
  }

  /**
    The program in once mode exits with 0 if and only if the reconciliation succeeds,
    every enabled watch has its turn, and no run logs an error.
   */
  method RunOnceMode(app: App, ws: seq<WatchConfig>, faults: Db.Faults, nets: nat -> Network,
                     replies: nat -> (nat -> Reply), clientMade: nat -> bool, cancelled: nat -> bool)
    returns (code: int)
    requires CanRun(app) && Db.Valid(app.db.rows) && KeysDistinct(ws) && !app.errorOccured
    requires AllFetchedBy(app, ws, nets, replies)
    modifies app, app.db
    ensures code == 0 || code == 1
    ensures code == 0 <==>
              && (forall i | 0 <= i < |ws| :: !faults.select(i)) && !faults.selectAll
              && (forall n | 0 <= n < |old(app.db.rows)| && faults.delete(n) ::
                    exists w | w in ws :: Key(w.name, w.url) == old(app.db.rows)[n].key)
              && (forall i | 0 <= i < |ws| :: ws[i].disabled || (clientMade(i) && !cancelled(i)))
              && !SomeRunFails(app, ws, old(app.db.rows), replies, |ws|)
  {
    ghost var before := app.db.rows;
    var prepared := app.db.PrepareDatabase(ws, faults);
    if prepared.None? {
      return 1;
    }
    Db.KeptValid(before, ws);
    SameRunsFail(app, ws, before, replies);
    UnhinderedMeans(ws, clientMade, cancelled, |ws|);
    var ok, _ := RunAllOnce(app, ws, nets, replies, clientMade, cancelled);
    return if ok && !app.errorOccured then 0 else 1;
  }
}
