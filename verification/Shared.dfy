/** Many jobs over one table: cron runs different watches at once, but no watch overlaps itself. */
module Shared {
  import opened Basics
  import opened Config
  import opened Protocol
  import opened Runs
  import Db = Database

  /** A job's progress and the id of the row it read last. */
  datatype Local = Local(ctl: Control, id: int)

  datatype System = System(table: Db.Table, locals: map<Key, Local>)

  function ServeTable(t: Db.Table, key: Key, id: int, request: Request, fault: bool): (Outcome, Db.Table) {
    if request.Quiet? then (Nothing, t)
    else if fault then (DbFailed, t)
    else
      match request
      case Select => (if Db.Select(t, key).Some? then Found(Db.Select(t, key).value.content) else NoRow, t)
      case Insert(content) =>
        if Db.Select(t, key).Some? then (DbFailed, t) else (Written, Db.Insert(t, key, content))
      case Update(content) => if Db.HasId(t, id) then (Written, Db.Update(t, id, content)) else (DbFailed, t)
  }

  function IdAfter(t: Db.Table, key: Key, id: int, request: Request): int {
    if request.Select? && Db.Select(t, key).Some? then Db.Select(t, key).value.id else id
  }

  /** One step of the job of this key; the other jobs stand still. */
  ghost function SystemStep(jobs: map<Key, Job>, g: System, key: Key, reply: Reply): System
    requires key in jobs && key in g.locals
  {
    var j, l := jobs[key], g.locals[key];
    var request := RequestAt(l.ctl.pc);
    var served := ServeTable(g.table, key, l.id, request, reply.dbFault);
    var ctl := Advance(l.ctl, Db.Contents(g.table, key), Next(j, l.ctl.pc, served.0, Heard(j, reply)));
    System(served.1, g.locals[key := Local(ctl, IdAfter(g.table, key, l.id, request))])
  }

  /** What one job sees: its own progress and the content of its own row. */
  function View(g: System, key: Key): State
    requires key in g.locals
  {
    State(g.locals[key].ctl, Db.Contents(g.table, key))
  }

  // ---- the invariant of the shared table ----

  /** Between its read and its update a job relies on the row it read. */
  predicate Holding(pc: Pc) {
    pc.Diffing? || pc.Composing? || pc.Mailing? || pc.Hooking? || pc.Updating?
  }

  ghost predicate Linked(t: Db.Table, key: Key, l: Local) {
    Holding(l.ctl.pc) ==> Db.Select(t, key).Some? && Db.Select(t, key).value.id == l.id
  }

  ghost predicate SystemInv(jobs: map<Key, Job>, g: System) {
    && g.locals.Keys == jobs.Keys
    && Db.Valid(g.table)
    && forall k | k in jobs :: Linked(g.table, k, g.locals[k])
  }

  // ---- the table, seen by the job that uses it and by the others ----

  lemma RowHasId(t: Db.Table, key: Key)
    requires Db.Select(t, key).Some?
    ensures Db.HasId(t, Db.Select(t, key).value.id)
  {
  }

  /** For the job itself the table is a cell with its content. */
  lemma OwnRow(t: Db.Table, key: Key, l: Local, fault: bool)
    requires Db.Valid(t) && Linked(t, key, l)
    ensures var request := RequestAt(l.ctl.pc);
            var served := ServeTable(t, key, l.id, request, fault);
            && Db.Valid(served.1)
            && (served.0, Db.Contents(served.1, key)) == ServeCell(Db.Contents(t, key), request, fault)
  {
    match RequestAt(l.ctl.pc) {
      case Insert(content) =>
        if Db.Select(t, key).None? {
          Db.InsertEffect(t, key, content, key);
        }
      case Update(content) =>
        RowHasId(t, key);
        Db.UpdateEffect(t, l.id, content, key);
      case _ =>
    }
  }

  lemma UpdateOther(t: Db.Table, row: Db.Row, content: Text, other: Key)
    requires Db.Valid(t) && row in t && row.key != other
    ensures Db.Select(Db.Update(t, row.id, content), other) == Db.Select(t, other)
  {
    Db.UpdateSelect(t, row.id, content, other);
    if Db.Select(t, other).Some? {
      Db.OtherId(t, Db.Select(t, other).value, row);
    }
  }

  /** No step of a job changes another watch's row. */
  lemma OtherRow(t: Db.Table, key: Key, id: int, request: Request, fault: bool, other: Key)
    requires Db.Valid(t) && other != key
    requires request.Update? ==> Db.Select(t, key).Some? && Db.Select(t, key).value.id == id
    ensures Db.Select(ServeTable(t, key, id, request, fault).1, other) == Db.Select(t, other)
  {
    if request.Insert? {
      if Db.Select(t, key).None? {
        Db.InsertEffect(t, key, request.content, other);
      }
    } else if request.Update? {
      UpdateOther(t, Db.Select(t, key).value, request.content, other);
    }
  }

  /** A job gets hold of a row by reading it, and lets go with its update. */
  lemma HoldingNext(j: Job, pc: Pc, answer: Outcome, input: Input)
    requires Holding(Next(j, pc, answer, input).0)
    ensures (pc.Reading? && answer.Found?) || (Holding(pc) && RequestAt(pc).Quiet?)
  {
  }

  /** After its own step a job is linked to its row again. */
  lemma OwnLink(j: Job, t: Db.Table, key: Key, l: Local, input: Input)
    requires Db.Valid(t) && Linked(t, key, l)
    ensures var request := RequestAt(l.ctl.pc);
            var served := ServeTable(t, key, l.id, request, input.reply.dbFault);
            var ctl := Advance(l.ctl, Db.Contents(t, key), Next(j, l.ctl.pc, served.0, input));
            Linked(served.1, key, Local(ctl, IdAfter(t, key, l.id, request)))
  {
    var served := ServeTable(t, key, l.id, RequestAt(l.ctl.pc), input.reply.dbFault);
    var next := Next(j, l.ctl.pc, served.0, input);
    if Holding(next.0) {
      HoldingNext(j, l.ctl.pc, served.0, input);
    }
  }

  // ---- one step ----

  lemma OwnStep(jobs: map<Key, Job>, g: System, key: Key, reply: Reply)
    requires SystemInv(jobs, g) && key in jobs
    ensures var g' := SystemStep(jobs, g, key, reply);
            && Db.Valid(g'.table)
            && Linked(g'.table, key, g'.locals[key])
            && View(g', key) == Step(jobs[key], View(g, key), reply)
  {
    OwnRow(g.table, key, g.locals[key], reply.dbFault);
    OwnLink(jobs[key], g.table, key, g.locals[key], Heard(jobs[key], reply));
  }

  lemma OtherStep(jobs: map<Key, Job>, g: System, key: Key, reply: Reply, other: Key)
    requires SystemInv(jobs, g) && key in jobs && other != key
    ensures var g' := SystemStep(jobs, g, key, reply);
            && Db.Select(g'.table, other) == Db.Select(g.table, other)
            && (other in jobs ==> g'.locals[other] == g.locals[other] && View(g', other) == View(g, other))
  {
    OtherRow(g.table, key, g.locals[key].id, RequestAt(g.locals[key].ctl.pc), reply.dbFault, other);
  }

  lemma SystemStepKeepsInv(jobs: map<Key, Job>, g: System, key: Key, reply: Reply)
    requires SystemInv(jobs, g) && key in jobs
    ensures SystemInv(jobs, SystemStep(jobs, g, key, reply))
  {
    OwnStep(jobs, g, key, reply);
    var g' := SystemStep(jobs, g, key, reply);
    forall k | k in jobs ensures Linked(g'.table, k, g'.locals[k]) {
      if k != key {
        OtherStep(jobs, g, key, reply, k);
      }
    }
  }

  // ---- interleavings ----

  datatype Turn = Turn(key: Key, reply: Reply)

  ghost predicate Scheduled(jobs: map<Key, Job>, schedule: seq<Turn>) {
    forall i | 0 <= i < |schedule| :: schedule[i].key in jobs
  }

  ghost function SystemRun(jobs: map<Key, Job>, g: System, schedule: seq<Turn>): (r: System)
    requires g.locals.Keys == jobs.Keys && Scheduled(jobs, schedule)
    ensures r.locals.Keys == jobs.Keys
  {
    if schedule == [] then g
    else
      var n := |schedule| - 1;
      SystemStep(jobs, SystemRun(jobs, g, schedule[..n]), schedule[n].key, schedule[n].reply)
  }

  /** The replies that the job of this key gets. */
  function RepliesTo(key: Key, schedule: seq<Turn>): seq<Reply> {
    if schedule == [] then []
    else
      var n := |schedule| - 1;
      RepliesTo(key, schedule[..n]) + (if schedule[n].key == key then [schedule[n].reply] else [])
  }

  lemma {:induction false} SystemRunKeepsInv(jobs: map<Key, Job>, g: System, schedule: seq<Turn>)
    requires SystemInv(jobs, g) && Scheduled(jobs, schedule)
    ensures SystemInv(jobs, SystemRun(jobs, g, schedule))
  {
    if schedule != [] {
      var n := |schedule| - 1;
      SystemRunKeepsInv(jobs, g, schedule[..n]);
      SystemStepKeepsInv(jobs, SystemRun(jobs, g, schedule[..n]), schedule[n].key, schedule[n].reply);
    }
  }

  lemma ViewAfterTurn(jobs: map<Key, Job>, g: System, start: State, replies: seq<Reply>, turn: Turn, key: Key)
    requires SystemInv(jobs, g) && key in jobs && turn.key in jobs
    requires View(g, key) == Run(jobs[key], start, replies)
    ensures View(SystemStep(jobs, g, turn.key, turn.reply), key)
         == Run(jobs[key], start, replies + (if turn.key == key then [turn.reply] else []))
  {
    if turn.key == key {
      OwnStep(jobs, g, key, turn.reply);
      RunSnoc(jobs[key], start, replies, turn.reply);
    } else {
      OtherStep(jobs, g, turn.key, turn.reply, key);
      assert replies + [] == replies;
    }
  }

  /**
    Every interleaving looks to each watch like a sequential history of that watch
    alone, with the replies its own steps got.
   */
  lemma {:induction false} Projection(jobs: map<Key, Job>, g: System, schedule: seq<Turn>, key: Key)
    requires SystemInv(jobs, g) && Scheduled(jobs, schedule) && key in jobs
    ensures View(SystemRun(jobs, g, schedule), key) == Run(jobs[key], View(g, key), RepliesTo(key, schedule))
  {
    if schedule != [] {
      var n := |schedule| - 1;
      Projection(jobs, g, schedule[..n], key);
      SystemRunKeepsInv(jobs, g, schedule[..n]);
      ViewAfterTurn(jobs, SystemRun(jobs, g, schedule[..n]), View(g, key), RepliesTo(key, schedule[..n]),
                    schedule[n], key);
    }
  }

  // ---- what follows for every interleaving ----

  /** No job is running. */
  function Start(jobs: map<Key, Job>, t: Db.Table): System {
    System(t, map k | k in jobs :: Local(Fresh(Db.Contents(t, k)).ctl, 0))
  }

  lemma StartInv(jobs: map<Key, Job>, t: Db.Table)
    requires Db.Valid(t)
    ensures SystemInv(jobs, Start(jobs, t))
    ensures forall k | k in jobs :: View(Start(jobs, t), k) == Fresh(Db.Contents(t, k))
  {
  }

  ghost predicate SystemReachable(jobs: map<Key, Job>, g: System)
  {
    exists t, schedule ::
      Db.Valid(t) && Scheduled(jobs, schedule) && g == SystemRun(jobs, Start(jobs, t), schedule)
  }

  lemma ViewReachable(jobs: map<Key, Job>, t: Db.Table, schedule: seq<Turn>, key: Key)
    requires Db.Valid(t) && Scheduled(jobs, schedule) && key in jobs
    ensures Reachable(jobs[key], View(SystemRun(jobs, Start(jobs, t), schedule), key))
  {
    StartInv(jobs, t);
    Projection(jobs, Start(jobs, t), schedule, key);
  }

  /** Whatever holds over every history of one job alone holds for it in every interleaving. */
  lemma ViewsReachable(jobs: map<Key, Job>, g: System, key: Key)
    requires SystemReachable(jobs, g) && key in jobs
    ensures SystemInv(jobs, g) && Reachable(jobs[key], View(g, key))
  {
    var t, schedule :|
      Db.Valid(t) && Scheduled(jobs, schedule) && g == SystemRun(jobs, Start(jobs, t), schedule);
    StartInv(jobs, t);
    SystemRunKeepsInv(jobs, Start(jobs, t), schedule);
    ViewReachable(jobs, t, schedule, key);
  }

  lemma RowInPlace(j: Job, t: Db.Table, key: Key, l: Local)
    requires Inv(j, State(l.ctl, Db.Contents(t, key))) && Linked(t, key, l)
    ensures l.ctl.pc.Inserting? ==> Db.Select(t, key).None?
    ensures Holding(l.ctl.pc) ==> Db.Select(t, key) == Some(Db.Row(l.id, key, l.ctl.pc.last))
  {
  }

  /**
    A job about to insert finds no row in its way; a job between its read and its
    update still has the row it read, with the same id and content.
   */
  lemma NobodyInterferes(jobs: map<Key, Job>, g: System, key: Key)
    requires SystemReachable(jobs, g) && key in jobs
    ensures var l := g.locals[key];
            && (l.ctl.pc.Inserting? ==> Db.Select(g.table, key).None?)
            && (Holding(l.ctl.pc) ==> Db.Select(g.table, key) == Some(Db.Row(l.id, key, l.ctl.pc.last)))
  {
    ViewsReachable(jobs, g, key);
    ReachableInv(jobs[key], View(g, key));
    RowInPlace(jobs[key], g.table, key, g.locals[key]);
  }

  /**
    With all jobs running at once, a stored content is replaced by another one only
    by the job of its own watch, and only after that job has mailed the diff of
    exactly these two contents to everybody in the same run.
   */
  lemma RowChangeAnnounced(jobs: map<Key, Job>, g: System, key: Key, reply: Reply, row: Key)
    requires SystemReachable(jobs, g) && key in jobs && key in g.locals
    requires Db.Contents(g.table, row).Some?
    requires Db.Contents(SystemStep(jobs, g, key, reply).table, row) != Db.Contents(g.table, row)
    ensures key == row
    ensures !jobs[key].dryRun ==> ChangeAnnounced(jobs[key], View(g, key), View(SystemStep(jobs, g, key, reply), key))
  {
    ViewsReachable(jobs, g, key);
    if key != row {
      OtherStep(jobs, g, key, reply, row);
    } else {
      OwnStep(jobs, g, key, reply);
      if !jobs[key].dryRun {
        CommitAnnounced(jobs[key], View(g, key), reply);
      }
    }
  }
}
