/**
 SQLite: which of its two ways an edit takes, and that either leaves the new
 design under its name, with the rows that were there.
 */
module DesignChoice {
  import opened Prelude
  import opened Engines
  import opened Design
  import opened DesignExec
  import opened DesignParts
  import opened DesignValid
  import opened DesignMoves
  import opened DesignPhases
  import opened DesignAdds
  import opened DesignReach
  import opened DesignSqlite
  import opened DesignFolds
  import opened DesignInPlace
  import opened DesignRebuild
  import opened DesignRebuildRun
  import opened DesignShortcut
  import opened DesignRefine
  import opened DesignAccepts

  // ------------------------------------------------------------------ when there is a plan

  lemma TempNamed(next: TableDesign)
    ensures !IsBlank(TempName(next))
  {
    hide LeadSpace, SolidLen;
    var s := TempName(next);
    assert s[0] == '_';
    BlankMeans(s);
  }

  lemma BlankMeans(s: string)
    requires s != "" && !IsTrimSpace(s[0])
    ensures !IsBlank(s)
  {
    hide IsTrimSpace;
    assert LeadSpace(s) == 0;
    assert s[0..] == s;
    var n := SolidLen(s);
    assert n > 0;
  }

  /** SQLite gets a plan exactly when the new design is valid. */
  lemma SqlitePlans(was: TableDesign, next: TableDesign)
    ensures AlterSqlite(was, next).Ok? <==> Validate(next).Ok?
    ensures AlterSqlite(was, next).Err? ==> AlterSqlite(was, next).error == Validate(next).error
  {
    hide Validate, Shortcut, InPlaceBody, RebuildBody, IsBlank, LowerDistinct, ColumnNamed;
    ValidMeans(next);
    ValidMeans(Shape(next));
    TempNamed(next);
    assert Shape(next).columns == next.columns && Shape(next).primaryKey == next.primaryKey;
    if Validate(next).Ok? {
      forall i | 0 <= i < |next.primaryKey|
        ensures IsColumn(Shape(next), next.primaryKey[i])
      {
        assert IsColumn(next, next.primaryKey[i]);
      }
    }
  }

  // ------------------------------------------------------------------ the setting

  /** An edit of a table in a database where nothing is in the way of a rebuild's temporary table. */
  ghost predicate Editable(was: TableDesign, next: TableDesign, vals: map<string, seq<Value>>, count: nat, db: Db) {
    && SoundEdit(was, next) && NoneBlank(next.triggers) && was.columns != []
    && FreshInCase(was.columns, next.columns) && NamesOfOneCase(was)
    && Loaded(was, vals) && was.name in db && db[was.name] == TableOf(Sqlite, was, vals, count)
    && NamesOpen(db, was.name, next)
    && !NameTaken(db, TempName(next)) && Unreferenced(db, TempName(next))
    && (forall i :: 0 <= i < |next.foreignKeys| ==> Lower(next.foreignKeys[i].refTable) != Lower(TempName(next)))
  }

  /** The column was there before, and neither then nor now is it computed. */
  predicate Survives(was: seq<ColumnDef>, n: ColumnDef) {
    && n.generated.None? && n.original.Some?
    && exists i :: 0 <= i < |was| && was[i].name == n.original.value && was[i].generated.None?
  }

  /** What a column that is not computed is to hold: what it held, or its default in every row. */
  predicate HoldsRight(was: seq<ColumnDef>, n: ColumnDef, vals: map<string, seq<Value>>, count: nat,
    held: map<string, seq<Value>>)
  {
    && n.name in held
    && (n.generated.None? ==>
          held[n.name] ==
          if Survives(was, n) && n.original.value in vals then vals[n.original.value] else Defaults(n, count))
  }

  predicate AllHoldRight(was: seq<ColumnDef>, cs: seq<ColumnDef>, vals: map<string, seq<Value>>, count: nat,
    held: map<string, seq<Value>>)
  {
    forall j :: 0 <= j < |cs| ==> HoldsRight(was, cs[j], vals, count, held)
  }

  predicate SomeSurvives(was: seq<ColumnDef>, cs: seq<ColumnDef>) {
    exists j :: 0 <= j < |cs| && Survives(was, cs[j])
  }

  lemma SurvivesIsCopied(was: seq<ColumnDef>, n: ColumnDef)
    requires NamesDistinct(was)
    ensures Survives(was, n) <==> IsCopied(was, n)
  {
    if Survives(was, n) {
      var i :| 0 <= i < |was| && was[i].name == n.original.value && was[i].generated.None?;
      assert ColumnAt(was, n.original.value) == i;
    }
  }

  // ------------------------------------------------------------------ what a rebuild leaves

  lemma {:induction false} NothingCopied(was: seq<ColumnDef>, cs: seq<ColumnDef>)
    ensures CopiedPairs(was, cs) == [] <==> forall j :: 0 <= j < |cs| ==> !IsCopied(was, cs[j])
  {
    hide IsCopied;
    if cs != [] {
      NothingCopied(was, cs[1..]);
      assert forall j :: 0 < j < |cs| ==> cs[j] == cs[1..][j - 1];
      assert forall j :: 0 <= j < |cs[1..]| ==> cs[1..][j] == cs[j + 1];
    }
  }

  /** A table without rows, whatever lists it is given: none of them has a value. */
  lemma {:induction false} EmptyColumns(d: TableDesign, cs: seq<ColumnDef>, held: map<string, seq<Value>>)
    requires forall j :: 0 <= j < |cs| ==> cs[j].name in held && held[cs[j].name] == []
    ensures ColumnsOf(Sqlite, d, cs, held) == ColumnsOf(Sqlite, d, cs, map[])
  {
    hide AttrOf, InlineKey;
    if cs != [] {
      assert forall j :: 0 <= j < |cs[1..]| ==> cs[1..][j] == cs[j + 1];
      EmptyColumns(d, cs[1..], held);
      assert cs[0].name in held;
    }
  }

  lemma RefilledRight(was: TableDesign, next: TableDesign, vals: map<string, seq<Value>>, count: nat)
    requires NamesDistinct(was.columns) && NamesDistinct(next.columns) && Loaded(was, vals)
    ensures AllHoldRight(was.columns, next.columns, vals, count, AllRefilled(was.columns, next.columns, vals, count))
  {
    hide Defaults, AllRefilled, NamesDistinct, IsCopied, Survives;
    forall j | 0 <= j < |next.columns|
      ensures HoldsRight(was.columns, next.columns[j], vals, count,
        AllRefilled(was.columns, next.columns, vals, count))
    {
      AllRefilledAt(was.columns, next.columns, vals, count, j);
      SurvivesIsCopied(was.columns, next.columns[j]);
    }
  }

  /** What the rebuild leaves under the new name. */
  lemma SurvivorsRight(was: TableDesign, next: TableDesign, vals: map<string, seq<Value>>, count: nat)
    returns (held: map<string, seq<Value>>)
    requires NamesDistinct(was.columns) && NamesDistinct(next.columns) && Loaded(was, vals)
    ensures var t := Survivors(was, next, vals, count);
      && t == TableOf(Sqlite, next, held, t.count) && t.count <= count
      && t.count == (if SomeSurvives(was.columns, next.columns) then count else 0)
      && AllHoldRight(was.columns, next.columns, vals, t.count, held)
  {
    hide TableOf, AllRefilled, IsCopied, Survives, NamesDistinct, CopiedPairs, HoldsRight, Loaded;
    NothingCopied(was.columns, next.columns);
    forall j | 0 <= j < |next.columns|
      ensures Survives(was.columns, next.columns[j]) <==> IsCopied(was.columns, next.columns[j])
    {
      SurvivesIsCopied(was.columns, next.columns[j]);
    }
    if CopiedPairs(was.columns, next.columns) == [] {
      held := AllRefilled(was.columns, next.columns, vals, 0);
      NoRowsKept(was, next, vals, held);
    } else {
      held := AllRefilled(was.columns, next.columns, vals, count);
      CountOf(next, held, count);
    }
    RefilledRight(was, next, vals, if CopiedPairs(was.columns, next.columns) == [] then 0 else count);
  }

  lemma CountOf(next: TableDesign, held: map<string, seq<Value>>, count: nat)
    ensures TableOf(Sqlite, next, held, count).count == count && TableOf(Sqlite, next, held, count).name == next.name
  {
    hide ColumnsOf, Bodies;
  }

  lemma NoRowsKept(was: TableDesign, next: TableDesign, vals: map<string, seq<Value>>, held: map<string, seq<Value>>)
    requires NamesDistinct(next.columns) && held == AllRefilled(was.columns, next.columns, vals, 0)
    requires forall j :: 0 <= j < |next.columns| ==> !IsCopied(was.columns, next.columns[j])
    ensures TableOf(Sqlite, next, map[], 0) == TableOf(Sqlite, next, held, 0)
    ensures TableOf(Sqlite, next, held, 0).count == 0
  {
    hide ColumnsOf, Bodies, AllRefilled, IsCopied, NamesDistinct, NamesOf, KeyOf, RealTriggers;
    forall j | 0 <= j < |next.columns|
      ensures next.columns[j].name in held && held[next.columns[j].name] == []
    {
      AllRefilledAt(was.columns, next.columns, vals, 0, j);
      assert Defaults(next.columns[j], 0) == [];
    }
    EmptyColumns(next, next.columns, held);
  }

  // ------------------------------------------------------------------ what the statements in place leave

  lemma CarriedRight(was: TableDesign, next: TableDesign, vals: map<string, seq<Value>>, count: nat)
    requires SoundEdit(was, next) && Shortcut(was, next) && Loaded(was, vals)
    ensures AllHoldRight(was.columns, next.columns, vals, count, Carried(next.columns, vals, count))
  {
    hide Defaults, Carried, NamesDistinct, IsCopied, Lookup, SameDefinition, Fresh;
    SoundColumns(next);
    forall j | 0 <= j < |next.columns|
      ensures HoldsRight(was.columns, next.columns[j], vals, count, Carried(next.columns, vals, count))
    {
      var n := next.columns[j];
      CarriedAt(next.columns, vals, count, j);
      assert SimpleColumn(was.columns, n);
      if n.original.Some? {
        LookupFreshHere(was, next, j);
        var o := Lookup(was.columns, n.original).value;
        DefinitionGenerated(o, n);
        var i :| 0 <= i < |was.columns| && was.columns[i] == o;
        if n.generated.None? {
          assert Survives(was.columns, n);
          assert o.name in vals;
        }
      }
    }
  }

  lemma DefinitionGenerated(a: ColumnDef, b: ColumnDef)
    requires SameDefinition(a, b)
    ensures a.generated == b.generated
  {
  }

  lemma ConsMeans(t: Tbl, s: Step, rest: seq<Step>)
    ensures Run(Sqlite, [s] + rest, t) ==
      match Exec(Sqlite, t, s) case None => None case Some(u) => Run(Sqlite, rest, u)
  {
    hide Exec;
    assert ([s] + rest)[1..] == rest;
  }

  lemma DropMeans(t: Tbl, name: string)
    ensures |t.order| <= 1 ==> Exec(Sqlite, t, DropColumn(name)).None?
    ensures Exec(Sqlite, t, DropColumn(name)).Some? ==>
      Exec(Sqlite, t, DropColumn(name)).value.order == Without(t.order, name)
  {
    hide Used, Referred, Without;
  }

  /** In place, the last column cannot be dropped, so an edit that keeps none is refused. */
  lemma {:induction false} DropsAll(olds: seq<ColumnDef>, news: seq<ColumnDef>, t: Tbl)
    requires olds != [] && t.order == NamesOf(olds) && NamesDistinct(olds)
    requires forall i :: 0 <= i < |news| ==> news[i].original.None?
    ensures Run(Sqlite, DropColumns(Sqlite, olds, news), t).None?
    decreases |olds|
  {
    hide Exec, NamesDistinct, Run, NamesOf, DropColumns, Without;
    DropColumnsCons(olds, news);
    assert !IsKept(news, olds[0].name);
    var name, rest := olds[0].name, DropColumns(Sqlite, olds[1..], news);
    var u := Exec(Sqlite, t, DropColumn(name));
    ConsMeans(t, DropColumn(name), rest);
    NamesOfCons(olds);
    DropMeans(t, name);
    if u.Some? {
      assert |NamesOf(olds)| == |olds| > 1;
      NamesTail(olds);
      FirstWithout(olds);
      DropsAll(olds[1..], news, u.value);
    }
  }

  lemma FirstWithout(olds: seq<ColumnDef>)
    requires olds != [] && NamesDistinct(olds)
    ensures Without(NamesOf(olds), olds[0].name) == NamesOf(olds[1..])
  {
    hide Without;
    NamesOfCons(olds);
    var rest := NamesOf(olds[1..]);
    forall i | 0 <= i < |rest|
      ensures rest[i] != olds[0].name
    {
      assert olds[i + 1].name == olds[1..][i].name;
    }
    WithoutMiddle([], olds[0].name, rest);
    assert [] + [olds[0].name] + rest == [olds[0].name] + rest && [] + rest == rest;
  }

  lemma InPlaceStart(was: TableDesign, next: TableDesign, t: Tbl)
    requires Run(Sqlite, DropColumns(Sqlite, was.columns, next.columns), t).None?
    ensures Run(Sqlite, InPlaceSteps(was, next), t).None?
  {
    hide Run, DropColumns, AddOrRename, DropIndexes, AddIndexes, DropTriggers, AddTriggerTexts, Removed, Added;
    var a := DropColumns(Sqlite, was.columns, next.columns);
    var b := AddOrRename(next.columns);
    var c, d := DropIndexes(Sqlite, Removed(IX, was.indexes, next.indexes)),
      AddIndexes(Added(IX, was.indexes, next.indexes));
    var f, g := DropTriggers(Removed(TR, was.triggers, next.triggers)),
      AddTriggerTexts(Added(TR, was.triggers, next.triggers));
    assert InPlaceSteps(was, next) == a + (b + c + d + f + g);
    RunAppend(Sqlite, a, b + c + d + f + g, t);
  }

  lemma NothingKept(was: TableDesign, next: TableDesign, vals: map<string, seq<Value>>, count: nat, db: Db,
    enforced: bool)
    requires Editable(was, next, vals, count, db) && !KeepsOne(next)
    ensures RunSql(db, enforced, InPlaceBody(was, next)).None?
  {
    hide RunSql, TableOf, InPlaceSteps, On, RenameOk, Loaded, SoundTable, Fresh, FreshInCase, NoneBlank, TakeAlong,
      TakeAllAlong, FreeElsewhere, NamesOfOneCase, NameTaken, Unreferenced, Run, AllFreeElsewhere, Lower, NamesOpen;
    NamesOpenParts(db, was, next);
    RenameFirst(was, next, vals, count, db, enforced);
    var rename := if was.name != next.name then [RenameTo(was.name, next.name)] else [];
    RunSqlAppend(db, enforced, rename, On(next.name, InPlaceSteps(was, next)));
    if RenameOk(was, next) {
      var t := TakeAlong(db[was.name], was, next).(name := next.name);
      var mid := (TakeAllAlong(db, was, next) - {was.name})[next.name := t];
      MidOpen(was, next, db, t);
      RunOn(mid, enforced, next.name, InPlaceSteps(was, next));
      OrderKeptAlong(was, next, vals, count);
      SoundColumns(was);
      DropsAll(was.columns, next.columns, t);
      InPlaceStart(was, next, t);
    }
  }

  lemma NamesOpenParts(db: Db, was: TableDesign, next: TableDesign)
    requires NamesOpen(db, was.name, next)
    ensures FreeElsewhere(db, was.name, next.name)
  {
    hide FreeElsewhere;
  }

  lemma OrderKeptAlong(was: TableDesign, next: TableDesign, vals: map<string, seq<Value>>, count: nat)
    ensures TakeAlong(TableOf(Sqlite, was, vals, count), was, next).(name := next.name).order == NamesOf(was.columns)
  {
    hide ColumnsOf, Bodies, RetargetKeys;
  }

  // ------------------------------------------------------------------ the whole plan

  lemma PlanIs(was: TableDesign, next: TableDesign)
    requires AlterSqlite(was, next).Ok?
    ensures next.columns != [] && ColumnsOneCase(next.columns)
    ensures AlterSqlite(was, next).value ==
      if Shortcut(was, next) then InPlace(InPlaceBody(was, next)) else Rebuild(RebuildBody(was, next))
  {
    hide Validate, Shortcut, InPlaceBody, RebuildBody, IsBlank, ColumnNamed, Lower;
    SqlitePlans(was, next);
    ValidMeans(next);
  }

  /**
   The table as the new design has it, foreign keys aside: its columns in order, each
   with its definition; every one that is not computed with the values it had, or
   its default if it is new or was computed; its rows, unless a rebuild copies no
   column; its key, indexes, checks and triggers.
   */
  ghost predicate IsDesigned(was: TableDesign, next: TableDesign, vals: map<string, seq<Value>>, count: nat, t: Tbl,
    held: map<string, seq<Value>>)
  {
    && t == TableOf(Sqlite, next, held, t.count).(fks := t.fks)
    && AllHoldRight(was.columns, next.columns, vals, t.count, held)
    && (t.count == count || (t.count == 0 && !SomeSurvives(was.columns, next.columns)))
  }

  /** Nothing else of the database changes, unless a foreign key refers to what is renamed. */
  ghost predicate OthersStay(was: TableDesign, next: TableDesign, db: Db, after: Db) {
    && (forall k :: k in after <==> k == next.name || (k in db && k != was.name))
    && (forall k :: k in db && k != was.name ==> k != next.name && after[k] == db[k].(fks := after[k].fks))
    && (NoneAffected(db, was, next) ==> forall k :: k in db && k != was.name ==> after[k] == db[k])
  }

  lemma InPlaceLeaves(was: TableDesign, next: TableDesign, vals: map<string, seq<Value>>, count: nat, db: Db,
    enforced: bool) returns (held: map<string, seq<Value>>)
    requires Editable(was, next, vals, count, db) && Shortcut(was, next)
    requires RunSql(db, enforced, InPlaceBody(was, next)).Some?
    ensures var after := RunSql(db, enforced, InPlaceBody(was, next)).value;
      && OthersStay(was, next, db, after) && IsDesigned(was, next, vals, count, after[next.name], held)
      && (NoneAffected(db, was, next) ==> after[next.name].fks == Bodies(FK, next.foreignKeys))
  {
    hide RunSql, TableOf, InPlaceBody, Carried, SoundTable, Fresh, FreshInCase, Shortcut, ColumnsOk, RenameOk,
      Loaded, NoneBlank, Bodies, CarryAll, CarryKeys, NoneAffected, NamesOfOneCase, NamesOpen, NameTaken, Unreferenced,
      Lower, AllHoldRight;
    if !KeepsOne(next) {
      NothingKept(was, next, vals, count, db, enforced);
    }
    held := Carried(next.columns, vals, count);
    InPlaceRuns(was, next, vals, count, db, enforced);
    CarriedRight(was, next, vals, count);
    var goal := TableOf(Sqlite, next, held, count);
    NamesOfTables(was, next, vals, count);
    CountOf(next, held, count);
    OpenNotElsewhere(db, was, next);
    ShortcutParts(was, next);
    ConstraintsSame(was, next);
    SameKeys(was, next, vals, count);
    KeysOf(was, vals, count);
    RenamedInCase(was, next);
    ReferencesDecide(db, was, next, goal);
    CarryIs(goal, was, next);
    CarriedOthers(db, was, next, goal);
  }

  lemma KeysOf(d: TableDesign, vals: map<string, seq<Value>>, count: nat)
    ensures TableOf(Sqlite, d, vals, count).fks == Bodies(FK, d.foreignKeys)
  {
    hide Bodies, ColumnsOf;
  }

  lemma RenamedInCase(was: TableDesign, next: TableDesign)
    requires RenameOk(was, next)
    ensures was.name == next.name || Lower(was.name) != Lower(next.name)
  {
    hide Lower;
  }

  lemma CarriedOthers(db: Db, was: TableDesign, next: TableDesign, t: Tbl)
    requires was.name in db && (next.name == was.name || next.name !in db) && t.name == next.name
    requires Carry(t, was, next).name == next.name
    requires Replacing(CarryAll(db, was, next), was.name, Carry(t, was, next)) == Replacing(db, was.name, t) <==>
      NoneAffected(db, was, next)
    ensures OthersStay(was, next, db, Replacing(CarryAll(db, was, next), was.name, Carry(t, was, next)))
    ensures NoneAffected(db, was, next) ==>
      Replacing(CarryAll(db, was, next), was.name, Carry(t, was, next))[next.name] == t
  {
    hide Carry, CarryAll, NoneAffected, Replacing;
    var u := Carry(t, was, next);
    CarriedEach(db, was, next);
    ReplacedOthers(db, CarryAll(db, was, next), was.name, next.name, u);
    if NoneAffected(db, was, next) {
      ReplacedSame(db, was.name, next.name, t);
    }
  }

  lemma CarriedEach(db: Db, was: TableDesign, next: TableDesign)
    ensures CarryAll(db, was, next).Keys == db.Keys
    ensures forall k :: k in db ==> CarryAll(db, was, next)[k] == db[k].(fks := CarryAll(db, was, next)[k].fks)
  {
    hide CarryKeys;
  }

  lemma ReplacedOthers(db: Db, carried: Db, name: string, to: string, t: Tbl)
    requires name in db && (to == name || to !in db) && t.name == to
    requires carried.Keys == db.Keys && forall k :: k in db ==> carried[k] == db[k].(fks := carried[k].fks)
    ensures var after := Replacing(carried, name, t);
      && (forall k :: k in after <==> k == to || (k in db && k != name))
      && (forall k :: k in db && k != name ==> k != to && after[k] == db[k].(fks := after[k].fks))
  {
  }

  lemma ReplacedSame(db: Db, name: string, to: string, t: Tbl)
    requires name in db && (to == name || to !in db) && t.name == to
    ensures var after := Replacing(db, name, t);
      to in after && after[to] == t && forall k :: k in db && k != name ==> k in after && after[k] == db[k]
  {
  }

  lemma RebuildLeaves(was: TableDesign, next: TableDesign, vals: map<string, seq<Value>>, count: nat, db: Db)
    returns (held: map<string, seq<Value>>)
    requires Editable(was, next, vals, count, db) && next.columns != [] && ColumnsOneCase(next.columns)
    requires RunSql(db, false, RebuildBody(was, next)).Some?
    ensures var after := RunSql(db, false, RebuildBody(was, next)).value;
      && OthersStay(was, next, db, after) && IsDesigned(was, next, vals, count, after[next.name], held)
      && after[next.name].fks == Bodies(FK, next.foreignKeys)
  {
    hide RunSql, TableOf, RebuildBody, Carried, SoundTable, Fresh, FreshInCase, Loaded, NoneBlank, Bodies, NoneAffected,
      NamesOfOneCase, NamesOpen, NameTaken, Unreferenced, Lower, AllHoldRight, SomeSurvives, Survivors, Copies,
      ColumnsOneCase;
    SoundEditParts(was, next);
    SoundColumns(was);
    SoundColumns(next);
    assert OldName(was, next) == was.name by { OldNameIs(was, next); }
    RebuildRuns(was, next, vals, count, db);
    held := SurvivorsRight(was, next, vals, count);
    var t := Survivors(was, next, vals, count);
    SurvivorsName(was, next, vals, count);
    KeysOf(next, held, t.count);
    OpenNotElsewhere(db, was, next);
  }

  lemma OldNameIs(was: TableDesign, next: TableDesign)
    requires SoundEdit(was, next)
    ensures OldName(was, next) == was.name
  {
    hide SoundTable, Fresh;
  }

  /**
   SQLite, any sound edit with fresh names: whichever way the plan goes, in place or
   by a rebuild, once it has run through the table under the new name is as
   designed, and no other table has changed but for foreign keys that refer to what
   is renamed.
   */
  lemma SqliteLeaves(was: TableDesign, next: TableDesign, vals: map<string, seq<Value>>, count: nat, db: Db,
    enforced: bool) returns (held: map<string, seq<Value>>)
    requires Editable(was, next, vals, count, db) && AlterSqlite(was, next).Ok?
    requires enforced ==> AlterSqlite(was, next).value.InPlace?
    requires RunSql(db, enforced, AlterSqlite(was, next).value.body).Some?
    ensures var after := RunSql(db, enforced, AlterSqlite(was, next).value.body).value;
      && OthersStay(was, next, db, after) && IsDesigned(was, next, vals, count, after[next.name], held)
      && (NoneAffected(db, was, next) ==> after[next.name].fks == Bodies(FK, next.foreignKeys))
  {
    hide RunSql, InPlaceBody, RebuildBody, Editable, Shortcut, Bodies, NoneAffected, AlterSqlite, OthersStay,
      IsDesigned,
      ColumnsOneCase;
    PlanIs(was, next);
    if Shortcut(was, next) {
      held := InPlaceLeaves(was, next, vals, count, db, enforced);
    } else {
      held := RebuildLeaves(was, next, vals, count, db);
    }
  }

  // ------------------------------------------------------------------ which way is taken

  /** These columns of the loaded table, in the order they have there. */
  predicate Rising(was: seq<ColumnDef>, names: seq<string>) {
    && (forall i :: 0 <= i < |names| ==> HasColumn(was, names[i]))
    && forall i, j :: 0 <= i < j < |names| ==> ColumnAt(was, names[i]) < ColumnAt(was, names[j])
  }

  lemma {:induction false} StillThereIn(was: seq<ColumnDef>, kept: seq<string>, x: string)
    ensures x in StillThere(was, kept) ==> HasColumn(was, x)
  {
    if was != [] {
      StillThereIn(was[1..], kept, x);
      HasColumnTail(was, x);
    }
  }

  lemma ColumnAtTail(was: seq<ColumnDef>, x: string)
    requires was != [] && NamesDistinct(was) && HasColumn(was[1..], x)
    ensures x != was[0].name && ColumnAt(was, x) == ColumnAt(was[1..], x) + 1
  {
    var i :| 0 <= i < |was[1..]| && was[1..][i].name == x;
    assert was[i + 1].name == x;
  }

  lemma {:induction false} StillThereRises(was: seq<ColumnDef>, kept: seq<string>)
    requires NamesDistinct(was)
    ensures Rising(was, StillThere(was, kept))
  {
    if was != [] {
      hide NamesDistinct, HasColumn, ColumnAt;
      NamesTail(was);
      StillThereRises(was[1..], kept);
      var rest := StillThere(was[1..], kept);
      forall i | 0 <= i < |rest|
        ensures HasColumn(was[1..], rest[i]) && HasColumn(was, rest[i])
          && ColumnAt(was, rest[i]) == ColumnAt(was[1..], rest[i]) + 1
      {
        StillThereIn(was[1..], kept, rest[i]);
        ColumnAtTail(was, rest[i]);
        HasColumnTail(was, rest[i]);
      }
      FirstColumn(was);
    }
  }

  lemma FirstColumn(was: seq<ColumnDef>)
    requires was != []
    ensures HasColumn(was, was[0].name) && ColumnAt(was, was[0].name) == 0
  {
  }

  lemma NoneBeforeFirst(was: seq<ColumnDef>, names: seq<string>, k: nat)
    requires Rising(was, names) && k < |names| && ColumnAt(was, names[k]) == 0
    ensures k == 0
  {
    hide ColumnAt, HasColumn;
    assert forall i :: 0 <= i < k ==> ColumnAt(was, names[i]) < ColumnAt(was, names[k]);
    assert 0 < k ==> ColumnAt(was, names[0]) < 0;
  }

  lemma NoneThere(names: seq<string>)
    requires names != []
    ensures !Rising([], names)
  {
    assert !HasColumn([], names[0]);
  }

  /** A list that rises is just what is still there of it. */
  lemma {:induction false} RisingIsStill(was: seq<ColumnDef>, names: seq<string>, kept: seq<string>)
    requires NamesDistinct(was) && Rising(was, names)
    requires forall i :: 0 <= i < |was| ==> (was[i].name in kept <==> was[i].name in names)
    ensures StillThere(was, kept) == names
    decreases |was|
  {
    if was == [] {
      if names != [] {
        NoneThere(names);
      }
    } else {
      NamesTail(was);
      FirstColumn(was);
      var x := was[0].name;
      var rest := if x in names then names[1..] else names;
      assert was[0].name in kept <==> was[0].name in names;
      if x in names {
        var k :| 0 <= k < |names| && names[k] == x;
        NoneBeforeFirst(was, names, k);
        assert names == [x] + rest;
        forall i | 0 <= i < |rest|
          ensures rest[i] != x
        {
          assert ColumnAt(was, names[0]) < ColumnAt(was, names[i + 1]);
        }
      }
      RisingTail(was, names, rest);
      forall i | 0 <= i < |was[1..]|
        ensures was[1..][i].name in kept <==> was[1..][i].name in rest
      {
        assert was[i + 1] == was[1..][i];
      }
      RisingIsStill(was[1..], rest, kept);
    }
  }

  lemma RisingTail(was: seq<ColumnDef>, names: seq<string>, rest: seq<string>)
    requires NamesDistinct(was) && was != [] && Rising(was, names)
    requires rest == names || (names != [] && rest == names[1..])
    requires forall i :: 0 <= i < |rest| ==> rest[i] != was[0].name
    ensures Rising(was[1..], rest)
  {
    hide NamesDistinct, HasColumn, ColumnAt, Rising;
    RisingRest(was, names, rest);
    forall i | 0 <= i < |rest|
      ensures HasColumn(was[1..], rest[i]) && ColumnAt(was, rest[i]) == ColumnAt(was[1..], rest[i]) + 1
    {
      RisingHas(was, rest, i);
      HasColumnTail(was, rest[i]);
      ColumnAtTail(was, rest[i]);
    }
    RisingShifts(was, rest);
  }

  lemma RisingRest(was: seq<ColumnDef>, names: seq<string>, rest: seq<string>)
    requires Rising(was, names) && (rest == names || (names != [] && rest == names[1..]))
    ensures Rising(was, rest)
  {
    hide HasColumn, ColumnAt;
    if rest != names {
      assert forall i :: 0 <= i < |rest| ==> rest[i] == names[i + 1];
    }
  }

  lemma RisingHas(was: seq<ColumnDef>, names: seq<string>, i: nat)
    requires Rising(was, names) && i < |names|
    ensures HasColumn(was, names[i])
  {
    hide HasColumn, ColumnAt;
  }

  lemma RisingShifts(was: seq<ColumnDef>, names: seq<string>)
    requires was != [] && Rising(was, names)
    requires forall i :: 0 <= i < |names| ==>
      HasColumn(was[1..], names[i]) && ColumnAt(was, names[i]) == ColumnAt(was[1..], names[i]) + 1
    ensures Rising(was[1..], names)
  {
    hide HasColumn, ColumnAt;
  }

  /** New columns stand behind all that are kept, and those in the order they were loaded in. */
  predicate InOrder(was: seq<ColumnDef>, news: seq<ColumnDef>) {
    forall i, j :: 0 <= i < j < |news| && news[j].original.Some? ==>
      news[i].original.Some?
      && ColumnAt(was, news[i].original.value) < ColumnAt(was, news[j].original.value)
  }

  predicate NewLast(news: seq<ColumnDef>) {
    forall i :: FirstNew(news) <= i < |news| ==> news[i].original.None?
  }

  lemma {:induction false} OriginalsFirst(news: seq<ColumnDef>)
    requires NewLast(news)
    ensures |Originals(news)| == FirstNew(news)
    ensures forall i :: 0 <= i < FirstNew(news) ==> Originals(news)[i] == news[i].original.value
  {
    if news != [] {
      if news[0].original.None? {
        NoOriginals(news);
      } else {
        assert forall i :: 0 <= i < |news[1..]| ==> news[1..][i] == news[i + 1];
        OriginalsFirst(news[1..]);
      }
    }
  }

  lemma OrderMeans(was: TableDesign, next: TableDesign)
    requires SoundEdit(was, next)
    ensures OrderKept(was, next) <==> InOrder(was.columns, next.columns)
  {
    hide SoundTable, Originals, StillThere, FirstNew, ColumnAt, NamesDistinct, Rising, HasColumn;
    var olds, news := was.columns, next.columns;
    SoundColumns(was);
    SoundEditParts(was, next);
    NewLastMeans(news);
    if NewLast(news) {
      OriginalsFirst(news);
      var names := Originals(news);
      StillThereRises(olds, names);
      if Rising(olds, names) {
        RisingIsStill(olds, names, names);
      }
      assert NamesFirst(news, names) by { FirstNamed(news, names); }
      if Rising(olds, names) {
        RisingInOrder(olds, news, names);
      }
      if InOrder(olds, news) {
        OriginalsNamed(was, next, names);
        InOrderRising(olds, news, names);
      }
    }
  }

  lemma FirstNamed(news: seq<ColumnDef>, names: seq<string>)
    requires NewLast(news) && |names| == FirstNew(news)
    requires forall i :: 0 <= i < |names| ==> names[i] == news[i].original.value
    ensures NamesFirst(news, names)
  {
  }

  lemma OriginalsNamed(was: TableDesign, next: TableDesign, names: seq<string>)
    requires SoundEdit(was, next) && NamesFirst(next.columns, names)
    ensures forall i :: 0 <= i < |names| ==> HasColumn(was.columns, names[i])
  {
    hide SoundTable, Fresh, HasColumn;
    OriginalsThere(was, next);
    forall i | 0 <= i < |names|
      ensures HasColumn(was.columns, names[i])
    {
      assert next.columns[i].original == Some(names[i]);
    }
  }

  lemma NewLastMeans(news: seq<ColumnDef>)
    ensures NewLast(news) <==>
      forall i, j :: 0 <= i < j < |news| && news[j].original.Some? ==> news[i].original.Some?
  {
    if !NewLast(news) {
      var j :| FirstNew(news) <= j < |news| && news[j].original.Some?;
      assert news[FirstNew(news)].original.None?;
    }
  }

  lemma OriginalsThere(was: TableDesign, next: TableDesign)
    requires SoundEdit(was, next)
    ensures forall i :: 0 <= i < |next.columns| && next.columns[i].original.Some? ==>
      HasColumn(was.columns, next.columns[i].original.value)
  {
    hide SoundTable, Fresh, Lookup;
    forall i | 0 <= i < |next.columns| && next.columns[i].original.Some?
      ensures HasColumn(was.columns, next.columns[i].original.value)
    {
      LookupFreshHere(was, next, i);
      var o := Lookup(was.columns, next.columns[i].original).value;
      var k :| 0 <= k < |was.columns| && was.columns[k] == o;
    }
  }

  /** The kept columns stand first, and these are their names when loaded. */
  predicate NamesFirst(news: seq<ColumnDef>, names: seq<string>) {
    && |names| <= |news| && (forall i :: |names| <= i < |news| ==> news[i].original.None?)
    && forall i :: 0 <= i < |names| ==> news[i].original == Some(names[i])
  }

  lemma RisingInOrder(was: seq<ColumnDef>, news: seq<ColumnDef>, names: seq<string>)
    requires NamesFirst(news, names) && Rising(was, names)
    ensures InOrder(was, news)
  {
    hide HasColumn, ColumnAt;
    forall i, j | 0 <= i < j < |news| && news[j].original.Some?
      ensures news[i].original.Some?
        && ColumnAt(was, news[i].original.value) < ColumnAt(was, news[j].original.value)
    {
      assert j < |names|;
      assert news[i].original == Some(names[i]) && news[j].original == Some(names[j]);
    }
  }

  lemma InOrderRising(was: seq<ColumnDef>, news: seq<ColumnDef>, names: seq<string>)
    requires NamesFirst(news, names) && InOrder(was, news)
    requires forall i :: 0 <= i < |names| ==> HasColumn(was, names[i])
    ensures Rising(was, names)
  {
    hide HasColumn, ColumnAt;
    forall i, j | 0 <= i < j < |names|
      ensures ColumnAt(was, names[i]) < ColumnAt(was, names[j])
    {
      assert news[i].original == Some(names[i]) && news[j].original == Some(names[j]);
    }
  }

  /**
   An edit is made in place exactly when no kept column changes its definition, no new
   one is generated and stored, new columns stand behind the kept ones and those in
   their order, and the key, the foreign keys and the checks are as they were.
   */
  lemma InPlaceWhen(was: TableDesign, next: TableDesign)
    requires SoundEdit(was, next) && AlterSqlite(was, next).Ok?
    ensures AlterSqlite(was, next).value.InPlace? <==>
      && (forall j :: 0 <= j < |next.columns| ==>
            if next.columns[j].original.None? then next.columns[j].generated.None? || !next.columns[j].generatedStored
            else
              var k := ColumnAt(was.columns, next.columns[j].original.value);
              k < |was.columns| && SameDefinition(was.columns[k], next.columns[j]))
      && InOrder(was.columns, next.columns)
      && was.primaryKey == next.primaryKey
      && |was.foreignKeys| == |next.foreignKeys|
      && (forall o :: o in was.foreignKeys ==> exists n :: n in next.foreignKeys && SameForeignKey(o, n))
      && |was.checks| == |next.checks|
      && (forall o :: o in was.checks ==> exists n :: n in next.checks && SameCheck(o, n))
  {
    hide AlterSqlite, SoundTable, SoundEdit, OrderKept, InOrder, SameDefinition, SameForeignKey, SameCheck, ColumnAt,
      InPlaceBody, RebuildBody;
    PlanIs(was, next);
    OrderMeans(was, next);
    assert (forall i :: 0 <= i < |was.foreignKeys| ==> AnyForeignKey(next.foreignKeys, was.foreignKeys[i])) <==>
      (forall o :: o in was.foreignKeys ==> exists n :: n in next.foreignKeys && SameForeignKey(o, n)) by {
      ForeignKeysAmong(was.foreignKeys, next.foreignKeys);
    }
    assert (forall i :: 0 <= i < |was.checks| ==> AnyCheck(next.checks, was.checks[i])) <==>
      (forall o :: o in was.checks ==> exists n :: n in next.checks && SameCheck(o, n)) by {
      ChecksAmong(was.checks, next.checks);
    }
  }

  lemma ForeignKeysAmong(olds: seq<ForeignKeyDef>, news: seq<ForeignKeyDef>)
    ensures (forall i :: 0 <= i < |olds| ==> AnyForeignKey(news, olds[i])) <==>
      (forall o :: o in olds ==> exists n :: n in news && SameForeignKey(o, n))
  {
    hide SameForeignKey;
    forall o | o in olds
      ensures AnyForeignKey(news, o) <==> exists n :: n in news && SameForeignKey(o, n)
    {
      if n :| n in news && SameForeignKey(o, n) {
        var i :| 0 <= i < |news| && news[i] == n;
      }
    }
    assert forall i :: 0 <= i < |olds| ==> olds[i] in olds;
  }

  lemma ChecksAmong(olds: seq<CheckDef>, news: seq<CheckDef>)
    ensures (forall i :: 0 <= i < |olds| ==> AnyCheck(news, olds[i])) <==>
      (forall o :: o in olds ==> exists n :: n in news && SameCheck(o, n))
  {
    hide SameCheck;
    forall o | o in olds
      ensures AnyCheck(news, o) <==> exists n :: n in news && SameCheck(o, n)
    {
      if n :| n in news && SameCheck(o, n) {
        var i :| 0 <= i < |news| && news[i] == n;
      }
    }
    assert forall i :: 0 <= i < |olds| ==> olds[i] in olds;
  }
}
