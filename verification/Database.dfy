/** The watches table and the statements the program runs on it. */
module Database {
  import opened Basics
  import opened Config

  datatype Row = Row(id: int, key: Key, content: Text)

  /** Rows in the order of their ids, as GetAllWatches returns them. */
  type Table = seq<Row>

  ghost predicate Ordered(t: Table, i: nat, j: nat)
    requires i < j < |t|
  {
    t[i].id < t[j].id && t[i].key != t[j].key
  }

  /** Ids ascend; no two rows share name and URL (the unique index). */
  ghost predicate Valid(t: Table) {
    forall i, j {:trigger Ordered(t, i, j)} | 0 <= i < j < |t| :: Ordered(t, i, j)
  }

  lemma OneRow(t: Table, i: nat, j: nat)
    requires Valid(t) && i < |t| && j < |t|
    ensures t[i].id == t[j].id <==> i == j
    ensures t[i].key == t[j].key <==> i == j
  {
    if i < j {
      assert Ordered(t, i, j);
    } else if j < i {
      assert Ordered(t, j, i);
    }
  }

  datatype DbError = NotFound | StatementFailed

  /** Which statements of one PrepareDatabase call fail. */
  datatype Faults = Faults(select: nat -> bool, selectAll: bool, delete: nat -> bool)

  // ---- statements ----

  function Select(t: Table, key: Key): (r: Option<Row>)
    ensures r.Some? ==> r.value in t && r.value.key == key
    ensures r.None? ==> forall row | row in t :: row.key != key
  {
    if t == [] then None
    else if t[0].key == key then Some(t[0])
    else Select(t[1..], key)
  }

  function Contents(t: Table, key: Key): Option<Text> {
    match Select(t, key)
    case Some(row) => Some(row.content)
    case None => None
  }

  /** The id SQLite gives a new row: one more than the largest. */
  function NextId(t: Table): int {
    if t == [] then 1 else t[|t| - 1].id + 1
  }

  function Insert(t: Table, key: Key, content: Text): Table {
    t + [Row(NextId(t), key, content)]
  }

  predicate HasId(t: Table, id: int) {
    exists row | row in t :: row.id == id
  }

  function Update(t: Table, id: int, content: Text): (r: Table)
    ensures |r| == |t|
    ensures forall i | 0 <= i < |t| :: r[i] == if t[i].id == id then t[i].(content := content) else t[i]
  {
    if t == [] then []
    else [if t[0].id == id then t[0].(content := content) else t[0]] + Update(t[1..], id, content)
  }

  function Delete(t: Table, id: int): Table {
    if t == [] then []
    else (if t[0].id == id then [] else [t[0]]) + Delete(t[1..], id)
  }

  lemma SelectUnique(t: Table, row: Row)
    requires Valid(t) && row in t
    ensures Select(t, row.key) == Some(row)
  {
    var r := Select(t, row.key).value;
    var i :| 0 <= i < |t| && t[i] == row;
    var j :| 0 <= j < |t| && t[j] == r;
    OneRow(t, i, j);
  }

  lemma SameId(t: Table, a: Row, b: Row)
    requires Valid(t) && a in t && b in t && a.id == b.id
    ensures a == b
  {
    var i :| 0 <= i < |t| && t[i] == a;
    var j :| 0 <= j < |t| && t[j] == b;
    OneRow(t, i, j);
  }

  lemma OtherId(t: Table, a: Row, b: Row)
    requires Valid(t) && a in t && b in t && a.key != b.key
    ensures a.id != b.id
  {
    var i :| 0 <= i < |t| && t[i] == a;
    var j :| 0 <= j < |t| && t[j] == b;
    OneRow(t, i, j);
  }

  /** An insert for a key without a row keeps the table valid and every other row. */
  lemma InsertEffect(t: Table, key: Key, content: Text, other: Key)
    requires Valid(t) && Select(t, key).None?
    ensures var t' := Insert(t, key, content);
            && Valid(t')
            && Select(t', other) == if other == key then Some(Row(NextId(t), key, content)) else Select(t, other)
  {
    var t' := Insert(t, key, content);
    var row := Row(NextId(t), key, content);
    forall i, j | 0 <= i < j < |t'| ensures Ordered(t', i, j) {
      if j < |t| {
        assert Ordered(t, i, j);
      } else {
        assert t[i] in t;
        if i < |t| - 1 {
          assert Ordered(t, i, |t| - 1);
        }
      }
    }
    assert row in t';
    if other == key {
      SelectUnique(t', row);
    } else if Select(t, other).Some? {
      assert Select(t, other).value in t';
      SelectUnique(t', Select(t, other).value);
    }
  }

  lemma UpdateValid(t: Table, id: int, content: Text)
    requires Valid(t)
    ensures Valid(Update(t, id, content))
  {
    var t' := Update(t, id, content);
    forall i, j | 0 <= i < j < |t'| ensures Ordered(t', i, j) {
      assert Ordered(t, i, j);
    }
  }

  lemma {:induction false} UpdateSelect(t: Table, id: int, content: Text, other: Key)
    ensures Select(Update(t, id, content), other)
         == match Select(t, other)
            case Some(row) => Some(if row.id == id then row.(content := content) else row)
            case None => None
  {
    if t != [] {
      UpdateSelect(t[1..], id, content, other);
      assert Update(t, id, content)[1..] == Update(t[1..], id, content);
    }
  }

  /** An update by id changes the content of that row only. */
  lemma UpdateEffect(t: Table, id: int, content: Text, other: Key)
    requires Valid(t)
    ensures Valid(Update(t, id, content))
    ensures Select(Update(t, id, content), other)
         == match Select(t, other)
            case Some(row) => Some(if row.id == id then row.(content := content) else row)
            case None => None
  {
    UpdateValid(t, id, content);
    UpdateSelect(t, id, content, other);
  }

  // ---- reconciliation with the configuration ----

  predicate Configured(key: Key, ws: seq<WatchConfig>) {
    exists w | w in ws :: KeyOf(w) == key
  }

  /** The rows whose watch is configured, disabled or not. */
  function Kept(t: Table, ws: seq<WatchConfig>): Table {
    if t == [] then []
    else (if Configured(t[0].key, ws) then [t[0]] else []) + Kept(t[1..], ws)
  }

  /** The configured watches without a row, in the order of the configuration. */
  function Missing(ws: seq<WatchConfig>, t: Table): seq<WatchConfig> {
    if ws == [] then []
    else (if Select(t, KeyOf(ws[0])).None? then [ws[0]] else []) + Missing(ws[1..], t)
  }

  lemma {:induction false} KeptMember(t: Table, ws: seq<WatchConfig>, row: Row)
    ensures row in Kept(t, ws) <==> row in t && Configured(row.key, ws)
  {
    if t != [] {
      KeptMember(t[1..], ws, row);
      assert row in t <==> row == t[0] || row in t[1..];
    }
  }

  lemma ValidTail(t: Table)
    requires Valid(t) && t != []
    ensures Valid(t[1..])
    ensures forall row | row in t[1..] :: row.id > t[0].id && row.key != t[0].key
  {
    forall row | row in t[1..] ensures row.id > t[0].id && row.key != t[0].key {
      var i :| 0 <= i < |t[1..]| && t[1..][i] == row;
      assert Ordered(t, 0, i + 1);
    }
    forall i, j | 0 <= i < j < |t| - 1 ensures Ordered(t[1..], i, j) {
      assert Ordered(t, i + 1, j + 1);
    }
  }

  lemma ValidCons(row: Row, t: Table)
    requires Valid(t) && forall r | r in t :: r.id > row.id && r.key != row.key
    ensures Valid([row] + t)
  {
    var t' := [row] + t;
    forall i, j | 0 <= i < j < |t'| ensures Ordered(t', i, j) {
      assert t'[j] == t[j - 1] && t[j - 1] in t;
      if i > 0 {
        assert Ordered(t, i - 1, j - 1);
      }
    }
  }

  lemma KeptFirst(t: Table, ws: seq<WatchConfig>)
    requires t != []
    ensures Kept(t, ws) == if Configured(t[0].key, ws) then [t[0]] + Kept(t[1..], ws) else Kept(t[1..], ws)
  {
  }

  lemma {:induction false} KeptValid(t: Table, ws: seq<WatchConfig>)
    requires Valid(t)
    ensures Valid(Kept(t, ws))
  {
    if t != [] {
      ValidTail(t);
      KeptValid(t[1..], ws);
      var rest := Kept(t[1..], ws);
      forall r | r in rest ensures r.id > t[0].id && r.key != t[0].key {
        KeptMember(t[1..], ws, r);
      }
      ValidCons(t[0], rest);
      KeptFirst(t, ws);
    }
  }

  /** Reconciliation touches no configured watch's row and leaves no other. */
  lemma KeptSelect(t: Table, ws: seq<WatchConfig>, key: Key)
    requires Valid(t)
    ensures Select(Kept(t, ws), key) == if Configured(key, ws) then Select(t, key) else None
  {
    var k := Kept(t, ws);
    KeptValid(t, ws);
    if Select(k, key).Some? {
      KeptMember(t, ws, Select(k, key).value);
      SelectUnique(t, Select(k, key).value);
    } else if Select(t, key).Some? {
      KeptMember(t, ws, Select(t, key).value);
    }
  }

  lemma {:induction false} KeptTwice(t: Table, ws: seq<WatchConfig>)
    ensures Kept(Kept(t, ws), ws) == Kept(t, ws)
  {
    if t != [] {
      KeptTwice(t[1..], ws);
      var rest := Kept(t[1..], ws);
      if Configured(t[0].key, ws) {
        assert Kept(t, ws) == [t[0]] + rest;
        assert ([t[0]] + rest)[1..] == rest;
      } else {
        assert Kept(t, ws) == rest;
      }
    }
  }

  lemma {:induction false} MissingAfterwards(ws: seq<WatchConfig>, all: seq<WatchConfig>, t: Table)
    requires Valid(t) && forall w | w in ws :: w in all
    ensures Missing(ws, Kept(t, all)) == Missing(ws, t)
  {
    if ws != [] {
      KeptSelect(t, all, KeyOf(ws[0]));
      MissingAfterwards(ws[1..], all, t);
    }
  }

  /** Start-up a second time deletes nothing and finds the same new watches. */
  lemma PrepareTwice(t: Table, ws: seq<WatchConfig>)
    requires Valid(t)
    ensures Kept(Kept(t, ws), ws) == Kept(t, ws) && Missing(ws, Kept(t, ws)) == Missing(ws, t)
  {
    KeptTwice(t, ws);
    MissingAfterwards(ws, ws, t);
  }

  lemma {:induction false} KeptOneMore(t: Table, ws: seq<WatchConfig>, w: WatchConfig)
    requires Valid(t) && !Configured(KeyOf(w), ws)
    ensures |Kept(t, ws + [w])| == |Kept(t, ws)| + (if Select(t, KeyOf(w)).Some? then 1 else 0)
  {
    if t != [] {
      ValidTail(t);
      KeptOneMore(t[1..], ws, w);
      assert Configured(t[0].key, ws + [w]) <==> Configured(t[0].key, ws) || KeyOf(w) == t[0].key by {
        assert w in ws + [w];
        if Configured(t[0].key, ws + [w]) {
          var v :| v in ws + [w] && KeyOf(v) == t[0].key;
          assert v in ws || v == w;
        }
        if Configured(t[0].key, ws) {
          var v :| v in ws && KeyOf(v) == t[0].key;
          assert v in ws + [w];
        }
      }
      if KeyOf(w) == t[0].key {
        assert Select(t[1..], KeyOf(w)).None?;
      }
    }
  }

  lemma MissingFirst(w: WatchConfig, ws: seq<WatchConfig>, t: Table)
    ensures Missing([w] + ws, t) == (if Select(t, KeyOf(w)).None? then [w] else []) + Missing(ws, t)
  {
    assert ([w] + ws)[1..] == ws;
  }

  lemma {:induction false} MissingSnoc(ws: seq<WatchConfig>, w: WatchConfig, t: Table)
    ensures Missing(ws + [w], t) == Missing(ws, t) + (if Select(t, KeyOf(w)).None? then [w] else [])
  {
    if ws == [] {
      assert [] + [w] == [w] + [];
      MissingFirst(w, [], t);
    } else {
      var first, rest := ws[0], ws[1..];
      MissingSnoc(rest, w, t);
      MissingFirst(first, rest, t);
      MissingFirst(first, rest + [w], t);
      assert ws == [first] + rest && ws + [w] == [first] + (rest + [w]);
    }
  }

  lemma {:induction false} NothingKept(t: Table)
    ensures Kept(t, []) == []
  {
    if t != [] {
      NothingKept(t[1..]);
    }
  }

  /** With distinct keys, every watch is either new or has exactly one row. */
  lemma {:induction false} WatchesCounted(ws: seq<WatchConfig>, t: Table)
    requires Valid(t) && KeysDistinct(ws)
    ensures |ws| == |Missing(ws, t)| + |Kept(t, ws)|
  {
    if ws == [] {
      NothingKept(t);
    } else {
      var n := |ws| - 1;
      var w := ws[n];
      assert ws == ws[..n] + [w];
      WatchesCounted(ws[..n], t);
      MissingSnoc(ws[..n], w, t);
      forall v | v in ws[..n] ensures KeyOf(v) != KeyOf(w) {
        var i :| 0 <= i < n && ws[i] == v;
        assert KeyOf(ws[i]) != KeyOf(ws[n]);
      }
      KeptOneMore(t, ws[..n], w);
    }
  }

  lemma KeptCons(row: Row, t: Table, ws: seq<WatchConfig>)
    ensures Kept([row] + t, ws) == (if Configured(row.key, ws) then [row] else []) + Kept(t, ws)
  {
    assert ([row] + t)[1..] == t;
  }

  lemma {:induction false} KeptAppend(a: Table, b: Table, ws: seq<WatchConfig>)
    ensures Kept(a + b, ws) == Kept(a, ws) + Kept(b, ws)
  {
    if a == [] {
      assert a + b == b;
    } else {
      var first, rest := a[0], a[1..];
      assert a == [first] + rest && a + b == [first] + (rest + b);
      KeptAppend(rest, b, ws);
      KeptCons(first, rest, ws);
      KeptCons(first, rest + b, ws);
      Associate(if Configured(first.key, ws) then [first] else [], Kept(rest, ws), Kept(b, ws));
    }
  }

  lemma {:induction false} DeleteAbsent(t: Table, id: int)
    requires forall row | row in t :: row.id != id
    ensures Delete(t, id) == t
  {
    if t != [] {
      DeleteAbsent(t[1..], id);
    }
  }

  lemma {:induction false} DeleteMiddle(a: Table, row: Row, b: Table)
    requires forall r | r in a + b :: r.id != row.id
    ensures Delete(a + [row] + b, row.id) == a + b
  {
    var t := a + [row] + b;
    if a == [] {
      assert t[1..] == b;
      DeleteAbsent(b, row.id);
    } else {
      assert t[0] == a[0] && a[0] in a + b;
      assert t[1..] == a[1..] + [row] + b;
      forall r | r in a[1..] + b ensures r.id != row.id {
        assert r in a + b;
      }
      DeleteMiddle(a[1..], row, b);
    }
  }

  // ---- the rows that are found, and the rows that are purged ----

  ghost predicate Purgeable(t: Table, ws: seq<WatchConfig>, deleteFails: nat -> bool, n: nat)
    requires n < |t|
  {
    Configured(t[n].key, ws) || !deleteFails(n)
  }

  /** The statement for some unconfigured row fails. */
  ghost predicate PurgeFails(t: Table, ws: seq<WatchConfig>, deleteFails: nat -> bool) {
    exists n | 0 <= n < |t| :: !Purgeable(t, ws, deleteFails, n)
  }

  ghost predicate HasRow(w: WatchConfig, t: Table, id: int) {
    Select(t, KeyOf(w)).Some? && Select(t, KeyOf(w)).value.id == id
  }

  /** The ids of the rows of the given watches. */
  ghost predicate AreFound(ids: seq<int>, ws: seq<WatchConfig>, t: Table) {
    forall id :: id in ids <==> exists w | w in ws :: HasRow(w, t, id)
  }

  lemma HasRowSnoc(ws: seq<WatchConfig>, w: WatchConfig, t: Table, id: int)
    ensures (exists v | v in ws + [w] :: HasRow(v, t, id))
       <==> (exists v | v in ws :: HasRow(v, t, id)) || HasRow(w, t, id)
  {
    var all := ws + [w];
    if v :| v in all && HasRow(v, t, id) {
      assert v in ws || v == w;
    }
    if v :| v in ws && HasRow(v, t, id) {
      assert v in all;
    }
    assert w in all;
  }

  lemma FoundSame(ids: seq<int>, ws: seq<WatchConfig>, w: WatchConfig, t: Table)
    requires AreFound(ids, ws, t) && Select(t, KeyOf(w)).None?
    ensures AreFound(ids, ws + [w], t)
  {
    forall id ensures id in ids <==> exists v | v in ws + [w] :: HasRow(v, t, id) {
      HasRowSnoc(ws, w, t, id);
    }
  }

  lemma FoundOneMore(ids: seq<int>, ws: seq<WatchConfig>, w: WatchConfig, t: Table)
    requires AreFound(ids, ws, t) && Select(t, KeyOf(w)).Some?
    ensures AreFound(ids + [Select(t, KeyOf(w)).value.id], ws + [w], t)
  {
    var found := Select(t, KeyOf(w)).value.id;
    forall id ensures id in ids + [found] <==> exists v | v in ws + [w] :: HasRow(v, t, id) {
      HasRowSnoc(ws, w, t, id);
      assert id in ids + [found] <==> id in ids || id == found;
    }
  }

  lemma FoundIff(t: Table, ws: seq<WatchConfig>, foundIDs: seq<int>, row: Row)
    requires Valid(t) && row in t
    requires AreFound(foundIDs, ws, t)
    ensures row.id in foundIDs <==> Configured(row.key, ws)
  {
    SelectUnique(t, row);
    if row.id in foundIDs {
      var w :| w in ws && HasRow(w, t, row.id);
      SameId(t, Select(t, KeyOf(w)).value, row);
    }
    if Configured(row.key, ws) {
      var w :| w in ws && KeyOf(w) == row.key;
      assert HasRow(w, t, row.id);
    }
  }

  /** The first n rows purged, the others as they were. */
  function HalfKept(t: Table, ws: seq<WatchConfig>, n: nat): Table
    requires n <= |t|
  {
    Kept(t[..n], ws) + t[n..]
  }

  lemma HalfKeptEnds(t: Table, ws: seq<WatchConfig>)
    ensures HalfKept(t, ws, 0) == t && HalfKept(t, ws, |t|) == Kept(t, ws)
  {
    assert t[..|t|] == t;
    assert Kept(t[..0], ws) == [];
  }

  lemma KeptNext(t: Table, ws: seq<WatchConfig>, n: nat)
    requires n < |t|
    ensures HalfKept(t, ws, n) == Kept(t[..n], ws) + [t[n]] + t[n + 1..]
    ensures HalfKept(t, ws, n + 1) == Kept(t[..n], ws) + (if Configured(t[n].key, ws) then [t[n]] else []) + t[n + 1..]
  {
    var one := [t[n]];
    assert t[..n + 1] == t[..n] + one;
    KeptAppend(t[..n], one, ws);
    assert one[1..] == [];
    assert Kept(one, ws) == if Configured(t[n].key, ws) then one else [];
  }

  lemma OtherIds(t: Table, ws: seq<WatchConfig>, n: nat)
    requires Valid(t) && n < |t|
    ensures forall r | r in Kept(t[..n], ws) + t[n + 1..] :: r.id != t[n].id
  {
    forall r | r in Kept(t[..n], ws) + t[n + 1..] ensures r.id != t[n].id {
      if r in Kept(t[..n], ws) {
        KeptMember(t[..n], ws, r);
        var i :| 0 <= i < n && t[i] == r;
        OneRow(t, i, n);
      } else {
        var i :| n < i < |t| && t[i] == r;
        OneRow(t, i, n);
      }
    }
  }

  lemma PurgeStep(t: Table, ws: seq<WatchConfig>, n: nat)
    requires Valid(t) && n < |t|
    ensures var now, next := HalfKept(t, ws, n), HalfKept(t, ws, n + 1);
            if Configured(t[n].key, ws) then next == now
            else next == Delete(now, t[n].id) && |next| + 1 == |now|
  {
    KeptNext(t, ws, n);
    if !Configured(t[n].key, ws) {
      OtherIds(t, ws, n);
      DeleteMiddle(Kept(t[..n], ws), t[n], t[n + 1..]);
    }
  }

  lemma PurgeFailsIff(t: Table, ws: seq<WatchConfig>, deleteFails: nat -> bool)
    ensures PurgeFails(t, ws, deleteFails) <==>
              exists n | 0 <= n < |t| :: deleteFails(n) && forall w | w in ws :: Key(w.name, w.url) != t[n].key
  {
    forall n: nat | n < |t|
      ensures Purgeable(t, ws, deleteFails, n) <==>
                !(deleteFails(n) && forall w | w in ws :: Key(w.name, w.url) != t[n].key)
    {
    }
  }

  // ---- the database object ----

  class Database {
    var rows: Table

    method GetLastContent(key: Key, fault: bool) returns (r: Result<Row, DbError>)
      ensures r == Err(StatementFailed) <==> fault
      ensures r.Ok? ==> r.value in rows && r.value.key == key
      ensures r == Err(NotFound) ==> forall row | row in rows :: row.key != key
    {
      if fault {
        return Err(StatementFailed);
      }
      match Select(rows, key) {
        case Some(row) => return Ok(row);
        case None => return Err(NotFound);
      }
    }

    /** The unique index rejects a second row for the same name and URL. */
    method InsertWatch(key: Key, content: Text, fault: bool) returns (r: Result<int, DbError>)
      requires Valid(rows)
      modifies this
      ensures Valid(rows)
      ensures r.Ok? <==> !fault && Select(old(rows), key).None?
      ensures r.Ok? ==> rows == old(rows) + [Row(r.value, key, content)]
      ensures r.Ok? ==> r.value == if old(rows) == [] then 1 else old(rows)[|old(rows)| - 1].id + 1
      ensures r.Err? ==> rows == old(rows)
    {
      if fault || Select(rows, key).Some? {
        return Err(StatementFailed);
      }
      var id := NextId(rows);
      InsertEffect(rows, key, content, key);
      rows := rows + [Row(id, key, content)];
      return Ok(id);
    }

    /** Updating an id without a row is an error: the statement returns the updated row. */
    method UpdateLastContent(id: int, content: Text, fault: bool) returns (ok: bool)
      requires Valid(rows)
      modifies this
      ensures Valid(rows)
      ensures ok <==> !fault && HasId(old(rows), id)
      ensures rows == if ok then Update(old(rows), id, content) else old(rows)
    {
      if fault || !HasId(rows, id) {
        return false;
      }
      UpdateEffect(rows, id, content, Key("", ""));
      rows := Update(rows, id, content);
      return true;
    }

    /** Which configured watches have no row, and the ids of the rows of the others. */
    method FindRows(ws: seq<WatchConfig>, selectFails: nat -> bool)
      returns (r: Option<(seq<WatchConfig>, seq<int>)>)
      ensures r.Some? ==> r.value.0 == Missing(ws, rows) && AreFound(r.value.1, ws, rows)
      ensures r.None? <==> exists i | 0 <= i < |ws| :: selectFails(i)
    {
      var newWatches: seq<WatchConfig> := [];
      var foundIDs: seq<int> := [];
      for i := 0 to |ws|
        invariant forall k | 0 <= k < i :: !selectFails(k)
        invariant newWatches == Missing(ws[..i], rows)
        invariant AreFound(foundIDs, ws[..i], rows)
      {
        if selectFails(i) {
          return None;
        }
        assert ws[..i + 1] == ws[..i] + [ws[i]];
        MissingSnoc(ws[..i], ws[i], rows);
        match Select(rows, KeyOf(ws[i])) {
          case None =>
            FoundSame(foundIDs, ws[..i], ws[i], rows);
            newWatches := newWatches + [ws[i]];
          case Some(row) =>
            FoundOneMore(foundIDs, ws[..i], ws[i], rows);
            foundIDs := foundIDs + [row.id];
        }
      }
      assert ws[..|ws|] == ws;
      return Some((newWatches, foundIDs));
    }

    /** Delete the rows whose id was not found, one statement each. */
    method Purge(ghost ws: seq<WatchConfig>, foundIDs: seq<int>, deleteFails: nat -> bool)
      returns (r: Option<nat>)
      requires Valid(rows) && AreFound(foundIDs, ws, rows)
      modifies this
      ensures r.Some? ==> rows == Kept(old(rows), ws) && |old(rows)| == |rows| + r.value
      ensures r.None? <==> PurgeFails(old(rows), ws, deleteFails)
      ensures r.None? ==> exists n | 0 <= n <= |old(rows)| :: rows == HalfKept(old(rows), ws, n)
    {
      ghost var before := rows;
      var allWatches := rows;
      var deleted: nat := 0;
      HalfKeptEnds(before, ws);
      for n := 0 to |allWatches|
        invariant allWatches == before && rows == HalfKept(before, ws, n)
        invariant |before| == |rows| + deleted
        invariant forall k | 0 <= k < n :: Purgeable(before, ws, deleteFails, k)
      {
        var row := allWatches[n];
        FoundIff(before, ws, foundIDs, row);
        PurgeStep(before, ws, n);
        if row.id !in foundIDs {
          if deleteFails(n) {
            assert !Purgeable(before, ws, deleteFails, n);
            return None;
          }
          rows := Delete(rows, row.id);
          deleted := deleted + 1;
        }
        assert Purgeable(before, ws, deleteFails, n);
      }
      return Some(deleted);
    }

    /**
      Without a fault: keep exactly the configured rows and return the configured
      watches that have none. A fault part-way has deleted unconfigured rows only.
     */
    method PrepareDatabase(ws: seq<WatchConfig>, faults: Faults)
      returns (r: Option<(seq<WatchConfig>, nat)>)
      requires Valid(rows)
      modifies this
      ensures r.Some? ==>
                && rows == Kept(old(rows), ws)
                && r.value.0 == Missing(ws, old(rows))
                && |old(rows)| == |rows| + r.value.1
      ensures r.None? ==> exists n | 0 <= n <= |old(rows)| :: rows == HalfKept(old(rows), ws, n)
      ensures r.None? <==>
                || (exists i | 0 <= i < |ws| :: faults.select(i))
                || faults.selectAll
                || exists n | 0 <= n < |old(rows)| ::
                     faults.delete(n) && forall w | w in ws :: Key(w.name, w.url) != old(rows)[n].key
    {
      PurgeFailsIff(rows, ws, faults.delete);
      HalfKeptEnds(rows, ws);
      var found := FindRows(ws, faults.select);
      if found.None? || faults.selectAll {
        return None;
      }
      var deleted := Purge(ws, found.value.1, faults.delete);
      if deleted.None? {
        return None;
      }
      return Some((found.value.0, deleted.value));
    }
  }

  // ---- a purge cut short ----

  lemma ValidConsAppend(row: Row, a: Table, b: Table)
    requires Valid(a + b) && forall r | r in a + b :: r.id > row.id && r.key != row.key
    ensures Valid(([row] + a) + b)
  {
    ValidCons(row, a + b);
    assert ([row] + a) + b == [row] + (a + b);
  }

  lemma ValidTailAppend(a: Table, b: Table)
    requires Valid(a + b) && a != []
    ensures Valid(a[1..] + b) && forall r | r in a[1..] + b :: r.id > a[0].id && r.key != a[0].key
  {
    ValidTail(a + b);
    assert (a + b)[1..] == a[1..] + b;
  }

  lemma LaterRows(first: Row, more: Table, rest: Table, b: Table, ws: seq<WatchConfig>)
    requires rest == Kept(more, ws)
    requires forall r | r in more + b :: r.id > first.id && r.key != first.key
    ensures forall r | r in rest + b :: r.id > first.id && r.key != first.key
  {
    forall r | r in rest + b ensures r.id > first.id && r.key != first.key {
      KeptMember(more, ws, r);
      assert r in more + b;
    }
  }

  lemma {:induction false} KeptBefore(a: Table, b: Table, ws: seq<WatchConfig>)
    requires Valid(a + b)
    ensures Valid(Kept(a, ws) + b)
  {
    if a == [] {
      assert Kept(a, ws) + b == a + b;
    } else {
      ValidTailAppend(a, b);
      KeptBefore(a[1..], b, ws);
      KeptFirst(a, ws);
      LaterRows(a[0], a[1..], Kept(a[1..], ws), b, ws);
      ValidConsAppend(a[0], Kept(a[1..], ws), b);
    }
  }

  lemma HalfKeptValid(t: Table, ws: seq<WatchConfig>, n: nat)
    requires Valid(t) && n <= |t|
    ensures Valid(HalfKept(t, ws, n))
  {
    assert t == t[..n] + t[n..];
    KeptBefore(t[..n], t[n..], ws);
  }

  lemma HalfKeptMember(t: Table, ws: seq<WatchConfig>, n: nat)
    requires n <= |t|
    ensures forall row | row in HalfKept(t, ws, n) :: row in t
    ensures forall row | row in t && Configured(row.key, ws) :: row in HalfKept(t, ws, n)
  {
    forall row ensures row in Kept(t[..n], ws) <==> row in t[..n] && Configured(row.key, ws) {
      KeptMember(t[..n], ws, row);
    }
    assert t == t[..n] + t[n..];
  }

  /** A purge cut short leaves a valid table, and every configured row as it was. */
  lemma HalfKeptSelect(t: Table, ws: seq<WatchConfig>, n: nat, key: Key)
    requires Valid(t) && n <= |t| && Configured(key, ws)
    ensures Valid(HalfKept(t, ws, n)) && Select(HalfKept(t, ws, n), key) == Select(t, key)
  {
    HalfKeptValid(t, ws, n);
    var half := HalfKept(t, ws, n);
    HalfKeptMember(t, ws, n);
    if Select(half, key).Some? {
      SelectUnique(t, Select(half, key).value);
    }
  }
}
