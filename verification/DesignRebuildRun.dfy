/**
 SQLite's rebuild as a whole: what it leaves when it gets through, and that it
 otherwise leaves everything as it was.
 */
module DesignRebuildRun {
  import opened Prelude
  import opened Engines
  import opened Design
  import opened DesignExec
  import opened DesignParts
  import opened DesignValid
  import opened DesignMoves
  import opened DesignPhases
  import opened DesignAdds
  import opened DesignReach
  import opened DesignSqlite
  import opened DesignFolds
  import opened DesignRebuild
  import opened Transactions

  lemma {:induction false} ColumnsOfShape(next: TableDesign, cs: seq<ColumnDef>, vals: map<string, seq<Value>>)
    ensures ColumnsOf(Sqlite, Shape(next), cs, vals) == ColumnsOf(Sqlite, next, cs, vals)
  {
    hide AttrOf;
    assert InlineKey(Sqlite, Shape(next)) == InlineKey(Sqlite, next);
    if cs != [] {
      ColumnsOfShape(next, cs[1..], vals);
    }
  }

  /** The new table under its own name, before its indexes and triggers exist. */
  lemma FilledIs(was: TableDesign, next: TableDesign, vals: map<string, seq<Value>>, count: nat)
    ensures var f, r := TableOf(Sqlite, Shape(next), vals, count), TableOf(Sqlite, next, vals, count);
      f.(name := next.name) == r.(indexes := map[], triggers := map[]) && f.name == TempName(next)
        && f.fks == Bodies(FK, next.foreignKeys)
  {
    hide ColumnsOf, KeyOf, NamesOf;
    ColumnsOfShape(next, next.columns, vals);
    assert RealTriggers([]) == [];
    assert KeyOf(Sqlite, Shape(next)) == KeyOf(Sqlite, next) by { KeyOfShape(next); }
  }

  lemma KeyOfShape(next: TableDesign)
    ensures KeyOf(Sqlite, Shape(next)) == KeyOf(Sqlite, next)
  {
  }

  /** The new table gets its indexes and triggers exactly when their names are apart, case aside. */
  lemma NewPartsRun(next: TableDesign, t: Tbl)
    requires SoundTable(next) && HasAll(t, next.columns) && t.indexes == map[] && t.triggers == map[]
    requires t.name == next.name
    ensures Run(Sqlite, AddIndexes(next.indexes) + AddTriggers(next.triggers), t) ==
      if NamesOfOneCase(next) then
        Some(t.(indexes := Bodies(IX, next.indexes), triggers := Bodies(TR, RealTriggers(next.triggers))))
      else None
  {
    hide Run, Bodies, Distinct, RealTriggers, HasAll, IsBlank, OneCase, Lower;
    forall i | 0 <= i < |next.indexes|
      ensures IndexFits(t, BodyOfIndex(next.indexes[i]))
    {
      assert IndexColumnsExist(next.columns, next.indexes[i]);
      IndexesFit(t, next.columns, next.indexes[i]);
    }
    AddIndexesLite(next.indexes, t);
    assert t.indexes + Bodies(IX, next.indexes) == Bodies(IX, next.indexes);
    var u := t.(indexes := Bodies(IX, next.indexes));
    RealTriggersDistinct(next.triggers);
    AddTriggersReal(next.triggers);
    AllReal(next.triggers);
    AddTriggersLite(RealTriggers(next.triggers), u);
    assert u.triggers + Bodies(TR, RealTriggers(next.triggers)) == Bodies(TR, RealTriggers(next.triggers));
    RunAppend(Sqlite, AddIndexes(next.indexes), AddTriggers(next.triggers), t);
  }

  /** The database once `t` has taken the place of the loaded table. */
  function Replacing(db: Db, name: string, t: Tbl): Db {
    (db - {name})[t.name := t]
  }

  /** No table refers to `name`. */
  predicate Unreferenced(db: Db, name: string) {
    forall k :: k in db ==> !RefersToTable(db[k], name)
  }

  /** No other table is called, nor has a part called, what the edited table or a part of it is to be called. */
  ghost predicate NamesOpen(db: Db, table: string, next: TableDesign) {
    && FreeElsewhere(db, table, next.name)
    && (forall x :: x in next.indexes ==> FreeElsewhere(db, table, x.name))
    && (forall x :: x in next.triggers ==> TriggerFreeElsewhere(db, table, x.name))
  }

  /**
   The setting of a rebuild: the loaded table is there, the new one has columns
   called apart, the names it needs are free of other tables, and nothing refers
   to the temporary one.
   */
  ghost predicate Rebuildable(was: TableDesign, next: TableDesign, vals: map<string, seq<Value>>, count: nat, db: Db) {
    && SoundTable(was) && SoundTable(next) && OldName(was, next) == was.name && Loaded(was, vals)
    && was.name in db && db[was.name] == TableOf(Sqlite, was, vals, count)
    && next.columns != [] && ColumnsOneCase(next.columns)
    && !NameTaken(db, TempName(next)) && NamesOpen(db, was.name, next)
    && Unreferenced(db, TempName(next))
    && (forall i :: 0 <= i < |next.foreignKeys| ==> Lower(next.foreignKeys[i].refTable) != Lower(TempName(next)))
  }

  lemma TempIsNotName(next: TableDesign)
    ensures Lower(TempName(next)) != Lower(next.name) && TempName(next) != next.name
  {
    hide Lower;
    assert |TempName(next)| == |TEMP| + |next.name| && |TEMP| == 11;
  }

  lemma BodiesUnreferenced(xs: seq<ForeignKeyDef>, name: string)
    requires Distinct(FK, xs) && forall i :: 0 <= i < |xs| ==> Lower(xs[i].refTable) != Lower(name)
    ensures forall k :: k in Bodies(FK, xs) ==> Lower(Bodies(FK, xs)[k].refTable) != Lower(name)
  {
    hide Bodies, Distinct, BodyOfForeignKey, Lower;
    forall k | k in Bodies(FK, xs)
      ensures Lower(Bodies(FK, xs)[k].refTable) != Lower(name)
    {
      BodiesKeys(FK, xs);
      NameSetAt(FK, xs, k);
      var i :| 0 <= i < |xs| && FK.name(xs[i]) == k;
      BodiesAt(FK, xs, i);
      BodyTarget(xs[i]);
    }
  }

  lemma BodyTarget(x: ForeignKeyDef)
    ensures BodyOfForeignKey(x).refTable == x.refTable && FK.body(x) == BodyOfForeignKey(x)
  {
  }

  /** The new table takes the place and the name of the old one. */
  lemma SwapNames(db: Db, temp: string, name: string, to: string, f: Tbl)
    requires name in db && temp !in db && Lower(temp) != Lower(to) && FreeElsewhere(db, name, to)
    requires Unreferenced(db, temp) && !RefersToTable(f, temp) && f.indexes == map[]
    ensures RunSql(db[temp := f], false, [DropTable(name), RenameTo(temp, to)]) ==
      Some(Replacing(db, name, f.(name := to)))
  {
    hide RunSql, RefersToTable, Retarget, Lower;
    var db2 := db[temp := f];
    var db3 := db2 - {name};
    RetargetAllIdle(db3, temp, to);
    var db4 := (db3 - {temp})[to := f.(name := to)];
    assert db4 == Replacing(db, name, f.(name := to));
    assert !NameTaken(db3, to);
    TwoRun(db2, DropTable(name), RenameTo(temp, to), db3, db4);
  }

  lemma AddsFreeElsewhere(db: Db, table: string, next: TableDesign)
    requires (forall x :: x in next.indexes ==> FreeElsewhere(db, table, x.name))
    requires (forall x :: x in next.triggers ==> TriggerFreeElsewhere(db, table, x.name))
    ensures AllFreeElsewhere(db, table, AddIndexes(next.indexes) + AddTriggers(next.triggers))
  {
    hide FreeElsewhere, TriggerFreeElsewhere;
    IndexesFreeElsewhere(db, table, next.indexes);
    TriggersFreeElsewhere(db, table, next.triggers);
  }

  lemma {:induction false} IndexesFreeElsewhere(db: Db, table: string, xs: seq<IndexDef>)
    requires forall x :: x in xs ==> FreeElsewhere(db, table, x.name)
    ensures AllFreeElsewhere(db, table, AddIndexes(xs))
  {
    hide FreeElsewhere;
    if xs != [] {
      IndexesFreeElsewhere(db, table, xs[1..]);
    }
  }

  lemma {:induction false} TriggersFreeElsewhere(db: Db, table: string, xs: seq<TriggerDef>)
    requires forall x :: x in xs ==> TriggerFreeElsewhere(db, table, x.name)
    ensures AllFreeElsewhere(db, table, AddTriggers(xs))
  {
    hide TriggerFreeElsewhere, IsBlank;
    if xs != [] {
      TriggersFreeElsewhere(db, table, xs[1..]);
    }
  }

  lemma ReplacedFree(db: Db, name: string, t: Tbl, other: string)
    requires name in db
    ensures FreeElsewhere(db, name, other) ==> FreeElsewhere(Replacing(db, name, t), t.name, other)
    ensures TriggerFreeElsewhere(db, name, other) ==> TriggerFreeElsewhere(Replacing(db, name, t), t.name, other)
  {
    hide Lower;
  }

  lemma TempNotThere(db: Db, name: string)
    requires !NameTaken(db, name)
    ensures name !in db
  {
    hide IndexLike;
  }

  lemma SwappedFree(db: Db, was: string, named: Tbl, next: TableDesign)
    requires was in db && named.name == next.name && NamesOpen(db, was, next)
    ensures AllFreeElsewhere(Replacing(db, was, named), next.name,
      AddIndexes(next.indexes) + AddTriggers(next.triggers))
  {
    hide FreeElsewhere, TriggerFreeElsewhere, AllFreeElsewhere, Replacing, AddIndexes, AddTriggers;
    var mid := Replacing(db, was, named);
    forall other: string
      ensures FreeElsewhere(db, was, other) ==> FreeElsewhere(mid, next.name, other)
      ensures TriggerFreeElsewhere(db, was, other) ==> TriggerFreeElsewhere(mid, next.name, other)
    {
      ReplacedFree(db, was, named, other);
    }
    AddsFreeElsewhere(mid, next.name, next);
  }

  /** The new table, under its name, gets its indexes and triggers. */
  lemma PartsMade(db: Db, was: string, next: TableDesign, held: map<string, seq<Value>>, rows: nat)
    requires SoundTable(next) && was in db && NamesOpen(db, was, next)
    ensures var named := TableOf(Sqlite, Shape(next), held, rows).(name := next.name);
      RunSql(Replacing(db, was, named), false, On(next.name, AddIndexes(next.indexes) + AddTriggers(next.triggers)))
      == if NamesOfOneCase(next) then Some(Replacing(db, was, TableOf(Sqlite, next, held, rows))) else None
  {
    hide RunSql, TableOf, SoundTable, On, AddIndexes, AddTriggers, Run, HasAll, Bodies, NamesOpen, NamesOfOneCase,
      AllFreeElsewhere, FollowAll;
    var f, goal := TableOf(Sqlite, Shape(next), held, rows), TableOf(Sqlite, next, held, rows);
    var named := f.(name := next.name);
    var mid := Replacing(db, was, named);
    NewFits(next, held, rows);
    HasAllSame(f, named, next.columns);
    NewPartsRun(next, named);
    SwappedFree(db, was, named, next);
    RunOn(mid, false, next.name, AddIndexes(next.indexes) + AddTriggers(next.triggers));
    NoRenames(mid, next.name, next.indexes, next.triggers);
    NamedIs(next, held, rows);
    NameOfTable(next, held, rows);
    assert mid[next.name := goal] == Replacing(db, was, goal);
  }

  lemma NamedIs(next: TableDesign, held: map<string, seq<Value>>, rows: nat)
    ensures var named, goal := TableOf(Sqlite, Shape(next), held, rows).(name := next.name),
      TableOf(Sqlite, next, held, rows);
      named.(indexes := Bodies(IX, next.indexes), triggers := Bodies(TR, RealTriggers(next.triggers))) == goal
  {
    hide TableOf, Bodies, RealTriggers;
    FilledIs(next, next, held, rows);
    NameOfTable(next, held, rows);
  }

  /**
   From the moment the new table holds its rows: the old one goes, the new one
   takes its name, its parts are made, if their names are apart.
   */
  lemma SwapRuns(was: TableDesign, next: TableDesign, vals: map<string, seq<Value>>, count: nat, db: Db,
    held: map<string, seq<Value>>, rows: nat)
    requires Rebuildable(was, next, vals, count, db)
    ensures RunSql(db[TempName(next) := TableOf(Sqlite, Shape(next), held, rows)], false,
      [DropTable(was.name), RenameTo(TempName(next), next.name)]
      + On(next.name, AddIndexes(next.indexes) + AddTriggers(next.triggers)) + [CheckForeignKeys])
      == if NamesOfOneCase(next) then Some(Replacing(db, was.name, TableOf(Sqlite, next, held, rows))) else None
  {
    hide RunSql, TableOf, SoundTable, On, RefersToTable, TempName, AddIndexes, AddTriggers, Unreferenced, Run, HasAll,
      Bodies, FreeElsewhere, TriggerFreeElsewhere, NameTaken, NamesOfOneCase, Lower, AllFreeElsewhere, ColumnsOneCase,
      Replacing;
    var temp, f := TempName(next), TableOf(Sqlite, Shape(next), held, rows);
    var steps := AddIndexes(next.indexes) + AddTriggers(next.triggers);
    var swap := [DropTable(was.name), RenameTo(temp, next.name)];
    TempIsNotName(next);
    TempNotThere(db, temp);
    FilledIs(was, next, held, rows);
    NewFits(next, held, rows);
    KeysDistinct(next);
    BodiesUnreferenced(next.foreignKeys, temp);
    NotReferring(f, temp);
    SwapNames(db, temp, was.name, next.name, f);
    PartsMade(db, was.name, next, held, rows);
    RunSqlAppend(db[temp := f], false, swap, On(next.name, steps));
    RunSqlAppend(db[temp := f], false, swap + On(next.name, steps), [CheckForeignKeys]);
    RunSqlOne(Replacing(db, was.name, TableOf(Sqlite, next, held, rows)), false, CheckForeignKeys);
  }

  /** Making indexes and triggers renames nothing. */
  lemma NoRenames(db: Db, table: string, indexes: seq<IndexDef>, triggers: seq<TriggerDef>)
    ensures FollowAll(db, table, AddIndexes(indexes) + AddTriggers(triggers)) == db
  {
    hide FollowKeys;
    IndexesStill(indexes);
    TriggersStill(triggers);
    forall k | k in db
      ensures Follow(db[k], table, AddIndexes(indexes) + AddTriggers(triggers)) == db[k]
    {
      FollowStill(db[k].fks, table, AddIndexes(indexes) + AddTriggers(triggers));
    }
  }

  /** None of the steps renames a column. */
  predicate Still(steps: seq<Step>) {
    forall i :: 0 <= i < |steps| ==> !steps[i].RenameColumn?
  }

  lemma {:induction false} FollowStill(fks: map<string, ForeignKeyBody>, table: string, steps: seq<Step>)
    requires Still(steps)
    ensures FollowKeys(fks, table, steps) == fks
    decreases |steps|
  {
    hide RetargetColumn;
    if steps != [] {
      assert !steps[0].RenameColumn?;
      forall i | 0 <= i < |steps[1..]|
        ensures !steps[1..][i].RenameColumn?
      {
        assert steps[1..][i] == steps[i + 1];
      }
      FollowStill(fks, table, steps[1..]);
    }
  }

  lemma {:induction false} IndexesStill(xs: seq<IndexDef>)
    ensures Still(AddIndexes(xs))
  {
    if xs != [] {
      IndexesStill(xs[1..]);
    }
  }

  lemma {:induction false} TriggersStill(xs: seq<TriggerDef>)
    ensures Still(AddTriggers(xs))
  {
    if xs != [] {
      TriggersStill(xs[1..]);
    }
  }

  lemma HasAllSame(t: Tbl, u: Tbl, cs: seq<ColumnDef>)
    requires HasAll(t, cs) && t.cols == u.cols
    ensures HasAll(u, cs)
  {
  }

  lemma NameOfTable(next: TableDesign, held: map<string, seq<Value>>, rows: nat)
    ensures var t := TableOf(Sqlite, next, held, rows);
      t.name == next.name && t.indexes == Bodies(IX, next.indexes)
        && t.triggers == Bodies(TR, RealTriggers(next.triggers))
  {
  }

  lemma KeysDistinct(next: TableDesign)
    requires SoundTable(next)
    ensures Distinct(FK, next.foreignKeys) && NamesDistinct(next.columns)
  {
  }

  lemma NotReferring(t: Tbl, name: string)
    requires forall k :: k in t.fks ==> Lower(t.fks[k].refTable) != Lower(name)
    ensures !RefersToTable(t, name)
  {
  }

  lemma NewFits(next: TableDesign, held: map<string, seq<Value>>, rows: nat)
    ensures var t := TableOf(Sqlite, Shape(next), held, rows);
      HasAll(t, next.columns) && t.indexes == map[] && t.triggers == map[]
  {
    hide ColumnsOf, HasColumn;
    ColumnsOfAll(Sqlite, Shape(next), held);
    assert RealTriggers([]) == [];
    forall i | 0 <= i < |next.columns|
      ensures next.columns[i].name in ColumnsOf(Sqlite, Shape(next), next.columns, held)
    {
      HasItself(next.columns, i);
    }
  }

  lemma HasItself(cs: seq<ColumnDef>, i: nat)
    requires i < |cs|
    ensures HasColumn(cs, cs[i].name)
  {
  }

  lemma TwoRun(db: Db, a: Sql, b: Sql, mid: Db, end: Db)
    requires ExecSql(db, false, a) == Some(mid) && ExecSql(mid, false, b) == Some(end)
    ensures RunSql(db, false, [a, b]) == Some(end)
  {
    hide ExecSql, RunSql;
    assert [a, b] == [a] + [b];
    RunSqlAppend(db, false, [a], [b]);
    RunSqlOne(db, false, a);
    RunSqlOne(mid, false, b);
  }

  /** The rows the new table ends up with: all of them, unless no column at all is copied. */
  function Survivors(was: TableDesign, next: TableDesign, vals: map<string, seq<Value>>, count: nat): Tbl {
    if CopiedPairs(was.columns, next.columns) == [] then TableOf(Sqlite, next, map[], 0)
    else TableOf(Sqlite, next, AllRefilled(was.columns, next.columns, vals, count), count)
  }

  predicate Copies(was: TableDesign, next: TableDesign, vals: map<string, seq<Value>>, count: nat) {
    CopiedPairs(was.columns, next.columns) == [] || Fillable(was, next, vals, count)
  }

  lemma CreateRuns(was: TableDesign, next: TableDesign, vals: map<string, seq<Value>>, count: nat, db: Db)
    requires Rebuildable(was, next, vals, count, db)
    ensures ExecSql(db, false, Create(Shape(next))) == Some(db[TempName(next) := Empty(next)])
    ensures TempName(next) !in db
  {
    hide TableOf, SoundTable, TempName, NameTaken, NamesOpen, ColumnsOneCase, Unreferenced, Lower, Loaded;
    TempNotThere(db, TempName(next));
    ShapeKeeps(next);
  }

  lemma ShapeKeeps(next: TableDesign)
    ensures Shape(next).name == TempName(next) && Shape(next).columns == next.columns
  {
    hide TempName;
  }

  lemma CopyStep(was: TableDesign, next: TableDesign, vals: map<string, seq<Value>>, count: nat, db: Db)
    requires Rebuildable(was, next, vals, count, db)
    ensures var db1 := db[TempName(next) := Empty(next)];
      ExecSql(db1, false, Copy(was.name, TempName(next), CopiedPairs(was.columns, next.columns))) ==
        if Fillable(was, next, vals, count) then
          Some(db[TempName(next) := TableOf(Sqlite, Shape(next), AllRefilled(was.columns, next.columns, vals, count),
            count)])
        else None
  {
    hide TableOf, CopyRows, AllRefilled, CopiedPairs, Fillable, SoundTable, TempName, NameTaken, NamesOpen,
      ColumnsOneCase, Unreferenced, Lower;
    CreateRuns(was, next, vals, count, db);
    KeysDistinct(was);
    KeysDistinct(next);
    CopyRuns(was, next, vals, count);
    var temp, filled := TempName(next),
      TableOf(Sqlite, Shape(next), AllRefilled(was.columns, next.columns, vals, count), count);
    assert db[temp := Empty(next)][temp := filled] == db[temp := filled];
  }

  /**
   The rebuild's own statements run through exactly when every NOT NULL column can be
   filled and the names of the new table are apart, case aside, and then the new
   table stands where the old one did.
   */
  lemma RebuildRuns(was: TableDesign, next: TableDesign, vals: map<string, seq<Value>>, count: nat, db: Db)
    requires Rebuildable(was, next, vals, count, db)
    ensures RunSql(db, false, RebuildBody(was, next)) ==
      if Copies(was, next, vals, count) && NamesOfOneCase(next) then
        Some(Replacing(db, was.name, Survivors(was, next, vals, count)))
      else None
  {
    hide ExecSql, NameTaken, NamesOpen, NamesOfOneCase, ColumnsOneCase, RunSql, TableOf, AllRefilled, CopiedPairs,
      Fillable, SoundTable, On, Unreferenced, TempName, Replacing, Lower;
    var pairs, temp := CopiedPairs(was.columns, next.columns), TempName(next);
    var swap := [DropTable(was.name), RenameTo(temp, next.name)]
      + On(next.name, AddIndexes(next.indexes) + AddTriggers(next.triggers)) + [CheckForeignKeys];
    var copy := if pairs == [] then [] else [Copy(was.name, temp, pairs)];
    assert RebuildBody(was, next) == [Create(Shape(next))] + (copy + swap);
    assert copy + swap == if pairs == [] then swap else [Copy(was.name, temp, pairs)] + swap;
    var db1 := db[temp := Empty(next)];
    RunSqlAppend(db, false, [Create(Shape(next))], copy + swap);
    RunSqlOne(db, false, Create(Shape(next)));
    CreateRuns(was, next, vals, count, db);
    if pairs == [] {
      SwapRuns(was, next, vals, count, db, map[], 0);
    } else {
      RunSqlAppend(db1, false, copy, swap);
      RunSqlOne(db1, false, Copy(was.name, temp, pairs));
      CopyStep(was, next, vals, count, db);
      SwapRuns(was, next, vals, count, db, AllRefilled(was.columns, next.columns, vals, count), count);
    }
  }

  // ------------------------------------------------------------------ the whole plan, under any failure

  function Effect(s: Sql): (Db, bool) -> Option<Outcome<Db>> {
    (db, enforced) => match ExecSql(db, enforced, s) case None => None case Some(d) => Some(Outcome(d, None))
  }

  function Items(body: seq<Sql>): seq<Item<Db>> {
    if body == [] then [] else [Item(Work(Effect(body[0])), false)] + Items(body[1..])
  }

  lemma {:induction false} ItemsApply(body: seq<Sql>, db: Db, enforced: bool)
    ensures AllWork(Items(body)) && Applied(Items(body), db, enforced) == RunSql(db, enforced, body)
    decreases |body|
  {
    hide ExecSql;
    if body != [] {
      var first, rest := Item(Work(Effect(body[0])), false), Items(body[1..]);
      assert Items(body) == [first] + rest && ([first] + rest)[1..] == rest;
      ItemsWork(body[1..]);
      var d := ExecSql(db, enforced, body[0]);
      assert first.statement.effect(db, enforced) == if d.None? then None else Some(Outcome(d.value, None));
      if d.Some? {
        ItemsApply(body[1..], d.value, enforced);
      }
    }
  }

  lemma {:induction false} ItemsWork(body: seq<Sql>)
    ensures AllWork(Items(body)) && |Items(body)| == |body|
  {
    if body != [] {
      ItemsWork(body[1..]);
    }
  }

  /** The plan as it is applied: foreign keys off, one transaction, foreign keys on. */
  function RebuildPlan(was: TableDesign, next: TableDesign): seq<Item<Db>> {
    Wrapped(Items(RebuildBody(was, next)))
  }

  /** Did everything up to and including COMMIT get through? */
  predicate ThroughCommit(was: TableDesign, next: TableDesign, l: Link<Db>) {
    var body := Items(RebuildBody(was, next));
    var n := Survive(body, l.conn.state, false, Rest(l.faults, 2));
    !Faulty(l.faults, 0) && !Faulty(l.faults, 1) && n == |body| && !Faulty(l.faults, n + 2)
  }

  /**
   Whatever fails, on the way to COMMIT or in it, everyone sees the database as
   it was; once COMMIT got through, the new table stands in the old one's place
   with its rows, indexes and triggers, and the temporary one is gone, even if
   switching foreign keys back on then fails. The plan succeeds only with
   foreign keys back on, and so does the clean-up after a failure.
   */
  lemma RebuildIsAtomic(was: TableDesign, next: TableDesign, vals: map<string, seq<Value>>, count: nat, l: Link<Db>)
    requires l.conn.saved.None? && Rebuildable(was, next, vals, count, l.conn.state)
    ensures var r := ApplyPlan(l, true, RebuildPlan(was, next)); var end := r.0.conn;
      && (ThroughCommit(was, next, l) ==>
            && Copies(was, next, vals, count) && NamesOfOneCase(next) && end.saved.None?
            && end.state == Replacing(l.conn.state, was.name, Survivors(was, next, vals, count))
            && TempName(next) !in end.state)
      && (!ThroughCommit(was, next, l) ==> Committed(end) == l.conn.state)
      && (r.1 ==> ThroughCommit(was, next, l) && end.enforced)
      && (var k := StopsAfter(l, Items(RebuildBody(was, next)));
          !r.1 && !Faulty(l.faults, k) && !Faulty(l.faults, k + 1) ==> end.saved.None? && end.enforced)
  {
    hide RunSql, Applied, Survive, Items, RebuildBody, ApplyPlan, Wrapped, Survivors, Copies, Rest, Faulty, StopsAfter,
      TempName, NamesOfOneCase;
    var body := Items(RebuildBody(was, next));
    ItemsWork(RebuildBody(was, next));
    ItemsApply(RebuildBody(was, next), l.conn.state, false);
    WrappedIsAtomic(l, body);
    RebuildRuns(was, next, vals, count, l.conn.state);
    SurvivorsName(was, next, vals, count);
    TempIsNotName(next);
  }

  lemma SurvivorsName(was: TableDesign, next: TableDesign, vals: map<string, seq<Value>>, count: nat)
    ensures Survivors(was, next, vals, count).name == next.name
  {
  }

  /** Every index and every trigger of the new design exists on the table the rebuild leaves, and no other. */
  lemma RebuildKeepsParts(was: TableDesign, next: TableDesign, vals: map<string, seq<Value>>, count: nat)
    requires SoundTable(next)
    ensures var t := Survivors(was, next, vals, count);
      && (forall k :: k in t.indexes <==> exists i :: 0 <= i < |next.indexes| && next.indexes[i].name == k)
      && (forall k :: k in t.triggers <==>
        exists i :: 0 <= i < |next.triggers| && next.triggers[i].name == k && !IsBlank(next.triggers[i].definition))
  {
    hide Bodies, RealTriggers, IsBlank, CopiedPairs, AllRefilled, ColumnsOf;
    var t := Survivors(was, next, vals, count);
    forall k
      ensures k in t.indexes <==> exists i :: 0 <= i < |next.indexes| && next.indexes[i].name == k
    {
      BodiesKeys(IX, next.indexes);
      NameSetAt(IX, next.indexes, k);
      if k in t.indexes {
        var i :| 0 <= i < |next.indexes| && IX.name(next.indexes[i]) == k;
        assert next.indexes[i].name == k;
      }
      if i :| 0 <= i < |next.indexes| && next.indexes[i].name == k {
        assert IX.name(next.indexes[i]) == k;
      }
    }
    forall k
      ensures k in t.triggers <==>
        exists i :: 0 <= i < |next.triggers| && next.triggers[i].name == k && !IsBlank(next.triggers[i].definition)
    {
      BodiesKeys(TR, RealTriggers(next.triggers));
      InNameSet(TR, RealTriggers(next.triggers), k);
      if k in t.triggers {
        var x :| x in RealTriggers(next.triggers) && TR.name(x) == k;
        RealTriggersIn(next.triggers, x);
        var i :| 0 <= i < |next.triggers| && next.triggers[i] == x;
        assert next.triggers[i].name == k;
      }
      if i :| 0 <= i < |next.triggers| && next.triggers[i].name == k && !IsBlank(next.triggers[i].definition) {
        RealTriggersIn(next.triggers, next.triggers[i]);
        assert TR.name(next.triggers[i]) == k;
      }
    }
  }
}
