/**
 SQLite: for every edit the shortcut takes, the in-place statements and the
 rebuild leave the same database, unless something refers to what is renamed.
 */
module DesignRefine {
  import opened Prelude
  import opened Engines
  import opened Design
  import opened DesignExec
  import opened DesignParts
  import opened DesignValid
  import opened DesignMoves
  import opened DesignPhases
  import opened DesignAdds
  import opened DesignReach
  import opened DesignSqlite
  import opened DesignFolds
  import opened DesignInPlace
  import opened DesignRebuild
  import opened DesignRebuildRun
  import opened DesignShortcut

  /** The setting of the shortcut. */
  ghost predicate Alterable(was: TableDesign, next: TableDesign, vals: map<string, seq<Value>>, count: nat, db: Db) {
    && SoundEdit(was, next) && Shortcut(was, next) && KeepsOne(next) && NoneBlank(next.triggers)
    && FreshInCase(was.columns, next.columns) && NamesOfOneCase(was)
    && Loaded(was, vals) && was.name in db && db[was.name] == TableOf(Sqlite, was, vals, count)
    && NamesOpen(db, was.name, next)
  }

  /** The loaded rows respect the loaded columns. */
  predicate OwnRows(was: TableDesign, vals: map<string, seq<Value>>) {
    forall i :: 0 <= i < |was.columns| && was.columns[i].name in vals ==>
      Accepts(AttrOf(Sqlite, was.columns[i], InlineKey(Sqlite, was) == Some(was.columns[i].name)),
        vals[was.columns[i].name])
  }

  // ------------------------------------------------------------------ what references become in place

  /** A table whose foreign keys have followed the renamed table, and its renamed columns. */
  function TakeAlong(t: Tbl, was: TableDesign, next: TableDesign): Tbl {
    if was.name == next.name then t else Retarget(t, was.name, next.name)
  }

  function TakeAllAlong(db: Db, was: TableDesign, next: TableDesign): Db {
    map k | k in db :: TakeAlong(db[k], was, next)
  }

  function CarryKeys(t: Tbl, was: TableDesign, next: TableDesign): map<string, ForeignKeyBody> {
    FollowKeys(TakeAlong(t, was, next).fks, next.name, AddOrRename(next.columns))
  }

  function Carry(t: Tbl, was: TableDesign, next: TableDesign): Tbl {
    t.(fks := CarryKeys(t, was, next))
  }

  function CarryAll(db: Db, was: TableDesign, next: TableDesign): Db {
    map k | k in db :: Carry(db[k], was, next)
  }

  lemma {:induction false} ColumnDropsStill(olds: seq<ColumnDef>, news: seq<ColumnDef>)
    ensures Still(DropColumns(Sqlite, olds, news))
  {
    hide IsKept;
    if olds != [] {
      ColumnDropsStill(olds[1..], news);
    }
  }

  lemma {:induction false} IndexDropsStill(xs: seq<IndexDef>)
    ensures Still(DropIndexes(Sqlite, xs))
  {
    if xs != [] {
      IndexDropsStill(xs[1..]);
    }
  }

  lemma {:induction false} TriggerDropsStill(xs: seq<TriggerDef>)
    ensures Still(DropTriggers(xs))
  {
    if xs != [] {
      TriggerDropsStill(xs[1..]);
    }
  }

  lemma {:induction false} TriggerTextsStill(xs: seq<TriggerDef>)
    ensures Still(AddTriggerTexts(xs))
  {
    if xs != [] {
      TriggerTextsStill(xs[1..]);
    }
  }

  lemma BothStill(a: seq<Step>, b: seq<Step>)
    requires Still(a) && Still(b)
    ensures Still(a + b)
  {
  }

  /** Of the steps in place only those that rename columns move references. */
  lemma OnlyRenamesMove(was: TableDesign, next: TableDesign, fks: map<string, ForeignKeyBody>)
    ensures FollowKeys(fks, next.name, InPlaceSteps(was, next)) == FollowKeys(fks, next.name, AddOrRename(next.columns))
  {
    hide FollowKeys, Still, DropColumns, AddOrRename, DropIndexes, AddIndexes, DropTriggers, AddTriggerTexts, Removed,
      Added;
    var a, b := DropColumns(Sqlite, was.columns, next.columns), AddOrRename(next.columns);
    var c, d := DropIndexes(Sqlite, Removed(IX, was.indexes, next.indexes)),
      AddIndexes(Added(IX, was.indexes, next.indexes));
    var f, g := DropTriggers(Removed(TR, was.triggers, next.triggers)),
      AddTriggerTexts(Added(TR, was.triggers, next.triggers));
    assert InPlaceSteps(was, next) == a + (b + (c + d + (f + g)));
    ColumnDropsStill(was.columns, next.columns);
    IndexDropsStill(Removed(IX, was.indexes, next.indexes));
    IndexesStill(Added(IX, was.indexes, next.indexes));
    TriggerDropsStill(Removed(TR, was.triggers, next.triggers));
    TriggerTextsStill(Added(TR, was.triggers, next.triggers));
    BothStill(c, d);
    BothStill(f, g);
    BothStill(c + d, f + g);
    DesignInPlace.FollowAppend(fks, next.name, a, b + (c + d + (f + g)));
    FollowStill(fks, next.name, a);
    DesignInPlace.FollowAppend(fks, next.name, b, c + d + (f + g));
    FollowStill(FollowKeys(fks, next.name, b), next.name, c + d + (f + g));
  }

  lemma RetargetStable(was: TableDesign, next: TableDesign, vals: map<string, seq<Value>>, count: nat)
    requires SoundEdit(was, next) && NoStructureChange(was, next)
    ensures IsLoaded(was, next, vals, count,
      TakeAlong(TableOf(Sqlite, was, vals, count), was, next).(name := next.name))
  {
    hide Bodies, ColumnsOf, SoundEdit, NoStructureChange, Stable, RealTriggers;
    var t := TakeAlong(TableOf(Sqlite, was, vals, count), was, next).(name := next.name);
    forall k, n | k in t.fks && n in t.fks[k].columns
      ensures Stable(next.columns, n)
    {
      ForeignKeysStable(was, next, k, n);
    }
  }

  lemma OwnIndexLike(was: TableDesign, vals: map<string, seq<Value>>, count: nat, name: string)
    ensures IndexLike(TableOf(Sqlite, was, vals, count), name) <==>
      exists x :: x in was.indexes && Lower(x.name) == Lower(name)
  {
    hide Bodies, ColumnsOf, Lower;
    var t := TableOf(Sqlite, was, vals, count);
    BodiesKeys(IX, was.indexes);
    if k :| k in t.indexes && Lower(k) == Lower(name) {
      InNameSet(IX, was.indexes, k);
      var x :| x in was.indexes && IX.name(x) == k;
    }
    if x :| x in was.indexes && Lower(x.name) == Lower(name) {
      InNameSet(IX, was.indexes, x.name);
      assert IX.name(x) == x.name;
      assert x.name in t.indexes;
    }
  }

  lemma NameTakenMeans(was: TableDesign, next: TableDesign, vals: map<string, seq<Value>>, count: nat, db: Db)
    requires was.name in db && db[was.name] == TableOf(Sqlite, was, vals, count)
      && FreeElsewhere(db, was.name, next.name)
    ensures was.name == next.name || NameTaken(db, next.name) == !RenameOk(was, next)
  {
    hide TableOf, Lower, IndexLike;
    OwnIndexLike(was, vals, count, next.name);
    if Lower(was.name) == Lower(next.name) || IndexLike(db[was.name], next.name) {
      assert NameTaken(db, next.name);
    }
  }

  /** The rename of the table, if there is one. */
  lemma RenameFirst(was: TableDesign, next: TableDesign, vals: map<string, seq<Value>>, count: nat, db: Db,
    enforced: bool)
    requires was.name in db && db[was.name] == TableOf(Sqlite, was, vals, count)
      && FreeElsewhere(db, was.name, next.name)
    ensures var rename := if was.name != next.name then [RenameTo(was.name, next.name)] else [];
      RunSql(db, enforced, rename) ==
        if RenameOk(was, next) then
          Some((TakeAllAlong(db, was, next) - {was.name})[
            next.name := TakeAlong(db[was.name], was, next).(name := next.name)])
        else None
  {
    hide RunSql, Retarget, TableOf, NameTaken, FreeElsewhere, RenameOk;
    NamesOfTables(was, was, vals, count);
    if was.name != next.name {
      NameTakenMeans(was, next, vals, count, db);
      RunSqlOne(db, enforced, RenameTo(was.name, next.name));
      assert TakeAllAlong(db, was, next) == RetargetAll(db, was.name, next.name);
    } else {
      assert TakeAllAlong(db, was, next) == db;
      assert (db - {was.name})[was.name := db[was.name]] == db;
      RunSqlNothing(db, enforced);
      assert RenameOk(was, next) by { SameNameOk(was, next); }
    }
  }

  lemma SameNameOk(was: TableDesign, next: TableDesign)
    requires was.name == next.name
    ensures RenameOk(was, next)
  {
  }

  lemma CarriedHere(db: Db, was: TableDesign, next: TableDesign, end: Tbl, t: Tbl)
    requires was.name in db && (next.name == was.name || next.name !in db) && end.name == next.name
    ensures var mid := (TakeAllAlong(db, was, next) - {was.name})[next.name := t];
      FollowAll(mid, next.name, InPlaceSteps(was, next))[next.name := end] ==
        Replacing(CarryAll(db, was, next), was.name, end)
  {
    hide FollowKeys, InPlaceSteps, TakeAlong;
    var mid := (TakeAllAlong(db, was, next) - {was.name})[next.name := t];
    var l, r := FollowAll(mid, next.name, InPlaceSteps(was, next))[next.name := end],
      Replacing(CarryAll(db, was, next), was.name, end);
    forall k
      ensures (k in l <==> k in r) && (k in l ==> l[k] == r[k])
    {
      if k in l && k != next.name {
        OnlyRenamesMove(was, next, TakeAlong(db[k], was, next).fks);
        AlongKeys(db[k], was, next);
      }
    }
  }

  lemma AlongKeys(t: Tbl, was: TableDesign, next: TableDesign)
    ensures TakeAlong(t, was, next) == t.(fks := TakeAlong(t, was, next).fks)
  {
  }

  // ------------------------------------------------------------------ what the steps in place make, and are called

  /** The steps make nothing with a name of its own but columns. */
  predicate MakesNoPart(steps: seq<Step>) {
    forall i :: 0 <= i < |steps| ==> !steps[i].AddIndex? && !steps[i].AddTrigger?
  }

  lemma {:induction false} ColumnDropsMakeNothing(olds: seq<ColumnDef>, news: seq<ColumnDef>)
    ensures MakesNoPart(DropColumns(Sqlite, olds, news))
  {
    hide IsKept;
    if olds != [] {
      ColumnDropsMakeNothing(olds[1..], news);
    }
  }

  lemma {:induction false} RenamesMakeNothing(cs: seq<ColumnDef>)
    ensures MakesNoPart(AddOrRename(cs))
  {
    if cs != [] {
      RenamesMakeNothing(cs[1..]);
    }
  }

  lemma {:induction false} IndexDropsMakeNothing(xs: seq<IndexDef>)
    ensures MakesNoPart(DropIndexes(Sqlite, xs))
  {
    if xs != [] {
      IndexDropsMakeNothing(xs[1..]);
    }
  }

  lemma {:induction false} TriggerDropsMakeNothing(xs: seq<TriggerDef>)
    ensures MakesNoPart(DropTriggers(xs))
  {
    if xs != [] {
      TriggerDropsMakeNothing(xs[1..]);
    }
  }

  lemma {:induction false} TriggerTextsFree(db: Db, table: string, xs: seq<TriggerDef>)
    requires forall x :: x in xs ==> TriggerFreeElsewhere(db, table, x.name)
    ensures AllFreeElsewhere(db, table, AddTriggerTexts(xs))
  {
    hide TriggerFreeElsewhere;
    if xs != [] {
      TriggerTextsFree(db, table, xs[1..]);
    }
  }

  lemma NoPartFree(db: Db, table: string, steps: seq<Step>)
    requires MakesNoPart(steps)
    ensures AllFreeElsewhere(db, table, steps)
  {
  }

  lemma BothFree(db: Db, table: string, a: seq<Step>, b: seq<Step>)
    requires AllFreeElsewhere(db, table, a) && AllFreeElsewhere(db, table, b)
    ensures AllFreeElsewhere(db, table, a + b)
  {
    hide StepFreeElsewhere;
  }

  lemma InPlaceFree(was: TableDesign, next: TableDesign, db: Db)
    requires (forall x :: x in next.indexes ==> FreeElsewhere(db, next.name, x.name))
    requires (forall x :: x in next.triggers ==> TriggerFreeElsewhere(db, next.name, x.name))
    ensures AllFreeElsewhere(db, next.name, InPlaceSteps(was, next))
  {
    hide FreeElsewhere, TriggerFreeElsewhere, AllFreeElsewhere, MakesNoPart, DropColumns, AddOrRename, DropIndexes,
      AddIndexes, DropTriggers, AddTriggerTexts, Removed, Added;
    var a, b := DropColumns(Sqlite, was.columns, next.columns), AddOrRename(next.columns);
    var c, d := DropIndexes(Sqlite, Removed(IX, was.indexes, next.indexes)),
      AddIndexes(Added(IX, was.indexes, next.indexes));
    var f, g := DropTriggers(Removed(TR, was.triggers, next.triggers)),
      AddTriggerTexts(Added(TR, was.triggers, next.triggers));
    ColumnDropsMakeNothing(was.columns, next.columns);
    RenamesMakeNothing(next.columns);
    IndexDropsMakeNothing(Removed(IX, was.indexes, next.indexes));
    TriggerDropsMakeNothing(Removed(TR, was.triggers, next.triggers));
    NoPartFree(db, next.name, a);
    NoPartFree(db, next.name, b);
    NoPartFree(db, next.name, c);
    NoPartFree(db, next.name, f);
    forall x: IndexDef | x in Added(IX, was.indexes, next.indexes)
      ensures x in next.indexes
    {
      AddedIs(IX, was.indexes, next.indexes, x);
    }
    forall x: TriggerDef | x in Added(TR, was.triggers, next.triggers)
      ensures x in next.triggers
    {
      AddedIs(TR, was.triggers, next.triggers, x);
    }
    IndexesFreeElsewhere(db, next.name, Added(IX, was.indexes, next.indexes));
    TriggerTextsFree(db, next.name, Added(TR, was.triggers, next.triggers));
    BothFree(db, next.name, a, b);
    BothFree(db, next.name, a + b, c);
    BothFree(db, next.name, a + b + c, d);
    BothFree(db, next.name, a + b + c + d, f);
    BothFree(db, next.name, a + b + c + d + f, g);
  }

  lemma MidFree(was: TableDesign, next: TableDesign, db: Db, t: Tbl, name: string)
    ensures var mid := (TakeAllAlong(db, was, next) - {was.name})[next.name := t];
      && (FreeElsewhere(db, was.name, name) ==> FreeElsewhere(mid, next.name, name))
      && (TriggerFreeElsewhere(db, was.name, name) ==> TriggerFreeElsewhere(mid, next.name, name))
  {
    hide Lower, RetargetKeys;
  }

  lemma IndexesUnlike(was: TableDesign, next: TableDesign)
    requires RenameOk(was, next) && NamesOfOneCase(was)
    ensures forall x :: x in was.indexes ==> Lower(x.name) != Lower(next.name)
  {
    hide Lower, OneCase, RealTriggers;
  }

  lemma MidOpen(was: TableDesign, next: TableDesign, db: Db, t: Tbl)
    requires NamesOpen(db, was.name, next)
    ensures AllFreeElsewhere((TakeAllAlong(db, was, next) - {was.name})[next.name := t], next.name,
      InPlaceSteps(was, next))
  {
    hide FreeElsewhere, TriggerFreeElsewhere, AllFreeElsewhere, TakeAllAlong;
    var mid := (TakeAllAlong(db, was, next) - {was.name})[next.name := t];
    forall name: string
      ensures FreeElsewhere(db, was.name, name) ==> FreeElsewhere(mid, next.name, name)
      ensures TriggerFreeElsewhere(db, was.name, name) ==> TriggerFreeElsewhere(mid, next.name, name)
    {
      MidFree(was, next, db, t, name);
    }
    InPlaceFree(was, next, mid);
  }

  /** The steps on the renamed table. */
  lemma AfterRename(was: TableDesign, next: TableDesign, vals: map<string, seq<Value>>, count: nat, db: Db,
    enforced: bool)
    requires Alterable(was, next, vals, count, db) && RenameOk(was, next)
    ensures var mid := (TakeAllAlong(db, was, next) - {was.name})[
        next.name := TakeAlong(db[was.name], was, next).(name := next.name)];
      RunSql(mid, enforced, On(next.name, InPlaceSteps(was, next))) ==
        if ColumnsOk(was, next) && NamesOfOneCase(next) then
          Some(Replacing(CarryAll(db, was, next), was.name,
            Carry(TableOf(Sqlite, next, Carried(next.columns, vals, count), count), was, next)))
        else None
  {
    hide RunSql, TableOf, InPlaceSteps, On, Run, ColumnsOk, RenameOk, Carried, Shortcut, KeepsOne, Loaded, IsLoaded,
      SoundTable, Fresh, FreshInCase, NoneBlank, Bodies, FollowKeys, TakeAlong, CarryAll, FollowAll, TakeAllAlong,
      NamesOpen, AllFreeElsewhere, NamesOfOneCase, Lower;
    var t := TakeAlong(db[was.name], was, next).(name := next.name);
    var goal := TableOf(Sqlite, next, Carried(next.columns, vals, count), count);
    var mid := (TakeAllAlong(db, was, next) - {was.name})[next.name := t];
    ShortcutParts(was, next);
    RetargetStable(was, next, vals, count);
    NamesOfTables(was, next, vals, count);
    IndexesUnlike(was, next);
    InPlaceTable(was, next, vals, count, t);
    MidOpen(was, next, db, t);
    RunOn(mid, enforced, next.name, InPlaceSteps(was, next));
    if ColumnsOk(was, next) && NamesOfOneCase(next) {
      var end := goal.(fks := FollowKeys(t.fks, next.name, AddOrRename(next.columns)));
      ConstraintsSame(was, next);
      SameKeys(was, next, vals, count);
      AlongSame(db[was.name], goal, was, next);
      OpenNotElsewhere(db, was, next);
      CarriedHere(db, was, next, end, t);
    }
  }

  /**
   The in-place statements run through exactly when the new name may be given, no
   dropped column is indexed, every added one may be added, and the names of the
   new table are apart.
   */
  lemma InPlaceRuns(was: TableDesign, next: TableDesign, vals: map<string, seq<Value>>, count: nat, db: Db,
    enforced: bool)
    requires Alterable(was, next, vals, count, db)
    ensures RunSql(db, enforced, InPlaceBody(was, next)) ==
      if InPlaceOk(was, next) then
        Some(Replacing(CarryAll(db, was, next), was.name,
          Carry(TableOf(Sqlite, next, Carried(next.columns, vals, count), count), was, next)))
      else None
  {
    hide RunSql, TableOf, InPlaceSteps, On, ColumnsOk, RenameOk, Carried, Shortcut, KeepsOne, Loaded,
      SoundTable, Fresh, FreshInCase, NoneBlank, TakeAlong, CarryAll, TakeAllAlong, FreeElsewhere, NamesOfOneCase;
    RenameFirst(was, next, vals, count, db, enforced);
    var rename := if was.name != next.name then [RenameTo(was.name, next.name)] else [];
    RunSqlAppend(db, enforced, rename, On(next.name, InPlaceSteps(was, next)));
    if RenameOk(was, next) {
      AfterRename(was, next, vals, count, db, enforced);
    }
  }

  lemma AlongSame(t: Tbl, u: Tbl, was: TableDesign, next: TableDesign)
    requires t.fks == u.fks
    ensures TakeAlong(t, was, next).fks == TakeAlong(u, was, next).fks
  {
  }

  lemma NotElsewhere(db: Db, was: TableDesign, next: TableDesign)
    requires FreeElsewhere(db, was.name, next.name)
    ensures next.name == was.name || next.name !in db
  {
    hide Lower;
  }

  lemma RunSqlNothing(db: Db, enforced: bool)
    ensures RunSql(db, enforced, []) == Some(db)
  {
  }

  lemma ShortcutParts(was: TableDesign, next: TableDesign)
    requires Shortcut(was, next)
    ensures SimpleColumns(was, next) && NoStructureChange(was, next)
  {
  }

  lemma NamesOfTables(was: TableDesign, next: TableDesign, vals: map<string, seq<Value>>, count: nat)
    ensures TableOf(Sqlite, was, vals, count).name == was.name
    ensures TableOf(Sqlite, next, Carried(next.columns, vals, count), count).name == next.name
  {
    hide Carried, ColumnsOf, Bodies;
  }

  lemma SameKeys(was: TableDesign, next: TableDesign, vals: map<string, seq<Value>>, count: nat)
    requires Bodies(FK, was.foreignKeys) == Bodies(FK, next.foreignKeys)
    ensures TableOf(Sqlite, next, Carried(next.columns, vals, count), count).fks ==
      TableOf(Sqlite, was, vals, count).fks
  {
    hide Bodies, ColumnsOf, Carried;
  }

  // ------------------------------------------------------------------ what the rebuild copies

  lemma {:induction false} RefilledIsCarried(was: seq<ColumnDef>, news: seq<ColumnDef>, cs: seq<ColumnDef>,
      vals: map<string, seq<Value>>, count: nat)
    requires forall i :: 0 <= i < |cs| ==> Refilled(was, cs[i], vals, count) == Held(cs[i], vals, count)
    ensures AllRefilled(was, cs, vals, count) == Carried(cs, vals, count)
    decreases |cs|
  {
    hide Refilled, Held;
    if cs != [] {
      assert Refilled(was, cs[0], vals, count) == Held(cs[0], vals, count);
      forall i | 0 <= i < |cs[1..]|
        ensures Refilled(was, cs[1..][i], vals, count) == Held(cs[1..][i], vals, count)
      {
        assert cs[1..][i] == cs[i + 1];
      }
      RefilledIsCarried(was, news, cs[1..], vals, count);
    }
  }

  lemma KeptIsCopied(was: TableDesign, next: TableDesign, vals: map<string, seq<Value>>, count: nat, j: nat)
    requires SoundEdit(was, next) && Ordinary(was, next) && j < |next.columns|
    ensures IsCopied(was.columns, next.columns[j]) <==> next.columns[j].original.Some?
    ensures Refilled(was.columns, next.columns[j], vals, count) == Held(next.columns[j], vals, count)
  {
    hide SoundTable, Fresh, Defaults, Lookup;
    LookupFreshHere(was, next, j);
  }

  lemma LookupFreshHere(was: TableDesign, next: TableDesign, j: nat)
    requires SoundEdit(was, next) && j < |next.columns|
    ensures next.columns[j].original.Some? <==> Lookup(was.columns, next.columns[j].original).Some?
    ensures next.columns[j].original.Some? ==>
      var o := Lookup(was.columns, next.columns[j].original).value;
      o.name == next.columns[j].original.value && o in was.columns
  {
    hide Distinct, Fresh, Lookup;
    LookupFresh(was.columns, next.columns, j);
  }

  lemma {:induction false} SomePair(was: seq<ColumnDef>, cs: seq<ColumnDef>, j: nat)
    requires j < |cs| && IsCopied(was, cs[j])
    ensures CopiedPairs(was, cs) != []
  {
    hide IsCopied;
    if j > 0 {
      SomePair(was, cs[1..], j - 1);
    }
  }

  lemma FillableHere(was: TableDesign, next: TableDesign, vals: map<string, seq<Value>>, count: nat, j: nat)
    requires SoundEdit(was, next) && Shortcut(was, next) && Ordinary(was, next) && Loaded(was, vals)
      && OwnRows(was, vals) && AddsOk(next.columns, 0)
    requires j < |next.columns|
    ensures Accepts(AttrOf(Sqlite, next.columns[j], InlineKey(Sqlite, next) == Some(next.columns[j].name)),
      Refilled(was.columns, next.columns[j], vals, count))
  {
    hide SoundEdit, Fresh, AttrOf, Accepts, InlineKey, OrderKept, NoStructureChange, SameDefinition, Refilled, Held,
      AttrOk, Lookup;
    var n := next.columns[j];
    KeptIsCopied(was, next, vals, count, j);
    InlineAgrees(was, next, j);
    if n.original.Some? {
      LookupFreshHere(was, next, j);
      var o := Lookup(was.columns, n.original).value;
      var i :| 0 <= i < |was.columns| && was.columns[i] == o;
      assert SimpleColumn(was.columns, n);
      SameAttr(o, n, InlineKey(Sqlite, was) == Some(o.name));
      HeldKept(n, vals, count);
    } else {
      assert AttrOk(Sqlite, AttrOf(Sqlite, n, false));
      DefaultAccepted(n, vals, count);
    }
  }

  lemma HeldKept(n: ColumnDef, vals: map<string, seq<Value>>, count: nat)
    requires n.original.Some? && n.original.value in vals
    ensures Held(n, vals, count) == vals[n.original.value]
  {
  }

  lemma DefaultAccepted(n: ColumnDef, vals: map<string, seq<Value>>, count: nat)
    requires n.original.None? && AttrOk(Sqlite, AttrOf(Sqlite, n, false))
    ensures Accepts(AttrOf(Sqlite, n, false), Held(n, vals, count))
  {
    hide NonBlank, TypeSql, Lower;
  }

  // ------------------------------------------------------------------ the two ways compared

  /** A column of that name, case aside, is renamed to another. */
  predicate RenamedAway(news: seq<ColumnDef>, name: string) {
    exists i :: 0 <= i < |news| && Renames(news[i], name) && news[i].name != name
  }

  predicate Renames(n: ColumnDef, name: string) {
    n.original.Some? && n.original.value != n.name && Lower(n.original.value) == Lower(name)
  }

  /** The key does not refer to a table that is renamed, nor to a renamed column of the table. */
  predicate Unaffected(b: ForeignKeyBody, was: TableDesign, next: TableDesign) {
    && (was.name != next.name ==> !PointsAt(true, b, None, was.name))
    && (PointsAt(true, b, None, next.name) ==>
          forall i :: 0 <= i < |b.refColumns| ==> !RenamedAway(next.columns, b.refColumns[i]))
  }

  predicate KeysUnaffected(fks: map<string, ForeignKeyBody>, was: TableDesign, next: TableDesign) {
    forall k :: k in fks ==> Unaffected(fks[k], was, next)
  }

  /** No foreign key of the database refers to what the edit renames. */
  predicate NoneAffected(db: Db, was: TableDesign, next: TableDesign) {
    forall k :: k in db ==> KeysUnaffected(db[k].fks, was, next)
  }

  /** What a column is called after one step. */
  function FollowStep(name: string, s: Step): string {
    if s.RenameColumn? && Lower(s.name) == Lower(name) then s.to else name
  }

  /** And after all of them. */
  function FollowName(name: string, steps: seq<Step>): string
    decreases |steps|
  {
    if steps == [] then name else FollowName(FollowStep(name, steps[0]), steps[1..])
  }

  lemma {:induction false} FollowNameAppend(name: string, a: seq<Step>, b: seq<Step>)
    ensures FollowName(name, a + b) == FollowName(FollowName(name, a), b)
    decreases |a|
  {
    hide FollowStep;
    if a == [] {
      assert a + b == b;
    } else {
      assert (a + b)[1..] == a[1..] + b;
      FollowNameAppend(FollowStep(name, a[0]), a[1..], b);
    }
  }

  lemma FollowNameOne(name: string, n: ColumnDef)
    ensures FollowName(name, AddOrRename([n])) == if Renames(n, name) then n.name else name
  {
    hide Lower;
    DesignInPlace.StepOf(n);
    if n.original.None? {
      assert [AddColumn(n, Anywhere)][1..] == [];
      assert FollowName(name, []) == name;
    } else if n.original.value != n.name {
      var s := RenameColumn(n.original.value, n.name);
      assert [s][1..] == [];
      assert FollowName(FollowStep(name, s), []) == FollowStep(name, s);
    }
  }

  lemma {:induction false} NotRenamedStays(news: seq<ColumnDef>, pos: nat, name: string)
    requires pos <= |news| && forall i :: pos <= i < |news| ==> !Renames(news[i], name)
    ensures FollowName(name, AddOrRename(news[pos..])) == name
    decreases |news| - pos
  {
    hide Renames, FollowName, AddOrRename;
    if pos < |news| {
      DesignInPlace.AddOrRenameCons(news, pos);
      FollowNameAppend(name, AddOrRename([news[pos]]), AddOrRename(news[pos + 1..]));
      FollowNameOne(name, news[pos]);
      NotRenamedStays(news, pos + 1, name);
    } else {
      assert news[pos..] == [];
      NothingFollows(name);
    }
  }

  lemma NothingFollows(name: string)
    ensures FollowName(name, AddOrRename([])) == name
  {
  }

  /** Two columns of one list are not called alike, case aside, when loaded. */
  lemma OriginalsApart(was: seq<ColumnDef>, news: seq<ColumnDef>, i: nat, j: nat)
    requires Fresh(was, news) && FreshInCase(was, news) && i < |news| && j < |news| && i != j
    requires news[i].original.Some? && news[j].original.Some?
    ensures Lower(news[i].original.value) != Lower(news[j].original.value)
  {
    hide Lower;
    var lo, hi := if i < j then i else j, if i < j then j else i;
    assert news[lo].original != news[hi].original;
    var a :| 0 <= a < |was| && was[a].name == news[i].original.value;
    var b :| 0 <= b < |was| && was[b].name == news[j].original.value;
    assert a != b;
    var x, y := if a < b then a else b, if a < b then b else a;
    assert Lower(was[x].name) != Lower(was[y].name);
  }

  /** A new name is not, case aside, the loaded name of another column. */
  lemma NewNameApart(was: seq<ColumnDef>, news: seq<ColumnDef>, i: nat, j: nat)
    requires Fresh(was, news) && FreshInCase(was, news) && i < |news| && j < |news| && i != j
    requires news[j].original.Some?
    ensures Lower(news[i].name) != Lower(news[j].original.value)
  {
    hide Lower;
    var b :| 0 <= b < |was| && was[b].name == news[j].original.value;
    var lo, hi := if i < j then i else j, if i < j then j else i;
    assert news[lo].original.Some? ==> news[lo].original != news[hi].original;
  }

  lemma {:induction false} RenamedMoves(was: seq<ColumnDef>, news: seq<ColumnDef>, pos: nat, i: nat, name: string)
    requires Fresh(was, news) && FreshInCase(was, news) && pos <= i < |news| && Renames(news[i], name)
    ensures FollowName(name, AddOrRename(news[pos..])) == news[i].name
    decreases i - pos
  {
    hide Fresh, FreshInCase, FollowName, AddOrRename, Lower;
    DesignInPlace.AddOrRenameCons(news, pos);
    FollowNameAppend(name, AddOrRename([news[pos]]), AddOrRename(news[pos + 1..]));
    FollowNameOne(name, news[pos]);
    if pos == i {
      forall j | i + 1 <= j < |news|
        ensures !Renames(news[j], news[i].name)
      {
        if news[j].original.Some? {
          NewNameApart(was, news, i, j);
        }
      }
      NotRenamedStays(news, i + 1, news[i].name);
    } else {
      if news[pos].original.Some? {
        OriginalsApart(was, news, pos, i);
      }
      RenamedMoves(was, news, pos + 1, i, name);
    }
  }

  /** A name is left as it is exactly when no column of that name is renamed to another. */
  lemma NameStays(was: seq<ColumnDef>, news: seq<ColumnDef>, name: string)
    requires Fresh(was, news) && FreshInCase(was, news)
    ensures FollowName(name, AddOrRename(news)) == name <==> !RenamedAway(news, name)
  {
    hide Fresh, FreshInCase, FollowName, AddOrRename, Renames;
    assert news[0..] == news;
    if i :| 0 <= i < |news| && Renames(news[i], name) {
      RenamedMoves(was, news, 0, i, name);
      forall j | 0 <= j < |news| && Renames(news[j], name)
        ensures news[j].name == news[i].name
      {
        RenamedMoves(was, news, 0, j, name);
      }
    } else {
      NotRenamedStays(news, 0, name);
    }
  }

  function FollowNames(names: seq<string>, steps: seq<Step>): (r: seq<string>)
    ensures |r| == |names|
    ensures forall i :: 0 <= i < |r| ==> r[i] == FollowName(names[i], steps)
  {
    seq(|names|, i requires 0 <= i < |names| => FollowName(names[i], steps))
  }

  lemma {:induction false} FollowBody(fks: map<string, ForeignKeyBody>, table: string, steps: seq<Step>, k: string)
    ensures k in FollowKeys(fks, table, steps) <==> k in fks
    ensures k in fks ==>
      var b := fks[k];
      FollowKeys(fks, table, steps)[k] ==
        if PointsAt(true, b, None, table) then b.(refColumns := FollowNames(b.refColumns, steps)) else b
    decreases |steps|
  {
    hide Lower;
    if steps == [] {
      if k in fks {
        assert FollowNames(fks[k].refColumns, []) == fks[k].refColumns;
      }
    } else {
      var s := steps[0];
      var mid := if s.RenameColumn? then RetargetColumn(true, fks, None, table, s.name, s.to) else fks;
      FollowBody(mid, table, steps[1..], k);
      if k in fks && PointsAt(true, fks[k], None, table) {
        var names := fks[k].refColumns;
        var next := if s.RenameColumn? then Swapped(true, names, s.name, s.to) else names;
        assert FollowNames(next, steps[1..]) == FollowNames(names, steps);
      }
    }
  }

  lemma NamesStay(was: seq<ColumnDef>, news: seq<ColumnDef>, names: seq<string>)
    requires Fresh(was, news) && FreshInCase(was, news)
    ensures FollowNames(names, AddOrRename(news)) == names <==>
      forall i :: 0 <= i < |names| ==> !RenamedAway(news, names[i])
  {
    hide Fresh, FreshInCase, FollowName, AddOrRename, RenamedAway;
    forall i | 0 <= i < |names|
      ensures FollowName(names[i], AddOrRename(news)) == names[i] <==> !RenamedAway(news, names[i])
    {
      NameStays(was, news, names[i]);
    }
    var r := FollowNames(names, AddOrRename(news));
    if forall i :: 0 <= i < |names| ==> !RenamedAway(news, names[i]) {
      assert r == names;
    } else {
      var i :| 0 <= i < |names| && RenamedAway(news, names[i]);
      assert r[i] != names[i];
    }
  }

  lemma AlongBody(t: Tbl, was: TableDesign, next: TableDesign, k: string)
    requires was.name == next.name || Lower(was.name) != Lower(next.name)
    ensures k in TakeAlong(t, was, next).fks <==> k in t.fks
    ensures k in t.fks ==>
      TakeAlong(t, was, next).fks[k] ==
        if was.name != next.name && PointsAt(true, t.fks[k], None, was.name) then t.fks[k].(refTable := next.name)
        else t.fks[k]
    ensures k in t.fks && was.name != next.name && PointsAt(true, t.fks[k], None, was.name) ==>
      t.fks[k].refTable != next.name
  {
    hide Lower;
  }

  lemma CarryBody(t: Tbl, was: TableDesign, next: TableDesign, k: string)
    requires Fresh(was.columns, next.columns) && FreshInCase(was.columns, next.columns)
    requires was.name == next.name || Lower(was.name) != Lower(next.name)
    ensures k in CarryKeys(t, was, next) <==> k in t.fks
    ensures k in t.fks ==> (CarryKeys(t, was, next)[k] == t.fks[k] <==> Unaffected(t.fks[k], was, next))
  {
    hide Fresh, FreshInCase, FollowKeys, FollowNames, AddOrRename, RenamedAway, TakeAlong, PointsAt;
    AlongBody(t, was, next, k);
    FollowBody(TakeAlong(t, was, next).fks, next.name, AddOrRename(next.columns), k);
    if k in t.fks {
      NamesStay(was.columns, next.columns, t.fks[k].refColumns);
    }
  }

  lemma KeysCarried(t: Tbl, was: TableDesign, next: TableDesign)
    requires Fresh(was.columns, next.columns) && FreshInCase(was.columns, next.columns)
    requires was.name == next.name || Lower(was.name) != Lower(next.name)
    ensures CarryKeys(t, was, next) == t.fks <==> KeysUnaffected(t.fks, was, next)
  {
    hide Fresh, FreshInCase, CarryKeys, Unaffected, Lower;
    forall k
      ensures k in CarryKeys(t, was, next) <==> k in t.fks
      ensures k in t.fks ==> (CarryKeys(t, was, next)[k] == t.fks[k] <==> Unaffected(t.fks[k], was, next))
    {
      CarryBody(t, was, next, k);
    }
    if KeysUnaffected(t.fks, was, next) {
      assert CarryKeys(t, was, next) == t.fks;
    }
  }

  /**
   Replacing the table with references carried along or not: the same, exactly when
   nothing refers to what is renamed.
   */
  lemma ReferencesDecide(db: Db, was: TableDesign, next: TableDesign, t: Tbl)
    requires Fresh(was.columns, next.columns) && FreshInCase(was.columns, next.columns)
    requires was.name == next.name || Lower(was.name) != Lower(next.name)
    requires was.name in db && (next.name == was.name || next.name !in db)
      && t.name == next.name && t.fks == db[was.name].fks
    ensures Replacing(CarryAll(db, was, next), was.name, Carry(t, was, next)) == Replacing(db, was.name, t) <==>
      NoneAffected(db, was, next)
  {
    hide Fresh, FreshInCase, Carry, KeysUnaffected, Lower;
    forall k | k in db
      ensures Carry(db[k], was, next) == db[k] <==> KeysUnaffected(db[k].fks, was, next)
    {
      KeysCarried(db[k], was, next);
      CarryIs(db[k], was, next);
    }
    KeysOnly(t, db[was.name], was, next);
    CarryIs(t, was, next);
    CarryIs(db[was.name], was, next);
    ReplacedSame(db, was, next, t);
  }

  lemma CarryIs(t: Tbl, was: TableDesign, next: TableDesign)
    ensures Carry(t, was, next) == t.(fks := CarryKeys(t, was, next))
    ensures Carry(t, was, next) == t <==> CarryKeys(t, was, next) == t.fks
  {
    hide CarryKeys;
  }

  lemma ReplacedSame(db: Db, was: TableDesign, next: TableDesign, t: Tbl)
    requires was.name in db && (next.name == was.name || next.name !in db) && t.name == next.name
    requires Carry(t, was, next).name == t.name
    requires Carry(t, was, next) == t <==> Carry(db[was.name], was, next) == db[was.name]
    ensures Replacing(CarryAll(db, was, next), was.name, Carry(t, was, next)) == Replacing(db, was.name, t) <==>
      forall k :: k in db ==> Carry(db[k], was, next) == db[k]
  {
    hide Carry;
    var a, b := Replacing(CarryAll(db, was, next), was.name, Carry(t, was, next)), Replacing(db, was.name, t);
    if forall k :: k in db ==> Carry(db[k], was, next) == db[k] {
      assert a == b;
    } else {
      var k :| k in db && Carry(db[k], was, next) != db[k];
      var at := if k == was.name then next.name else k;
      assert at in a && at in b;
      assert a[at] == (if k == was.name then Carry(t, was, next) else Carry(db[k], was, next));
      assert b[at] == (if k == was.name then t else db[k]);
    }
  }

  lemma KeysOnly(t: Tbl, u: Tbl, was: TableDesign, next: TableDesign)
    requires t.fks == u.fks
    ensures CarryKeys(t, was, next) == CarryKeys(u, was, next)
  {
    hide TakeAlong, FollowKeys, AddOrRename;
    AlongSame(t, u, was, next);
  }

  /** Where the shortcut applies, the rebuild leaves the new design with the values it had. */
  lemma RebuiltIsDesign(was: TableDesign, next: TableDesign, vals: map<string, seq<Value>>, count: nat)
    requires SoundEdit(was, next) && Shortcut(was, next) && Ordinary(was, next) && Loaded(was, vals)
      && OwnRows(was, vals) && ColumnsOk(was, next)
    ensures Copies(was, next, vals, count)
    ensures Survivors(was, next, vals, count) == TableOf(Sqlite, next, Carried(next.columns, vals, count), count)
  {
    hide TableOf, ColumnsOk, Carried, AllRefilled, SoundEdit, Shortcut, Loaded, OwnRows, CopiedPairs, Refilled, Held,
      IsCopied, Accepts;
    var j :| 0 <= j < |next.columns| && next.columns[j].original.Some?;
    KeptIsCopied(was, next, vals, count, j);
    SomePair(was.columns, next.columns, j);
    InPlaceAdds(was, next);
    forall i | 0 <= i < |next.columns|
      ensures Refilled(was.columns, next.columns[i], vals, count) == Held(next.columns[i], vals, count)
      ensures Accepts(AttrOf(Sqlite, next.columns[i], InlineKey(Sqlite, next) == Some(next.columns[i].name)),
        Refilled(was.columns, next.columns[i], vals, count))
    {
      KeptIsCopied(was, next, vals, count, i);
      FillableHere(was, next, vals, count, i);
    }
    RefilledIsCarried(was.columns, next.columns, next.columns, vals, count);
  }

  /**
   The shortcut refines the rebuild. When the in-place statements run through,
   so does the rebuild, and both leave the new design with the same columns in
   the same order, the same rows, key, indexes, checks and triggers. The whole
   databases are equal exactly when no foreign key refers to a table or a column
   that is renamed: only in place are such references carried along.
   */
  lemma ShortcutRefines(was: TableDesign, next: TableDesign, vals: map<string, seq<Value>>, count: nat, db: Db)
    requires Alterable(was, next, vals, count, db) && Rebuildable(was, next, vals, count, db)
    requires Ordinary(was, next) && OwnRows(was, vals) && InPlaceOk(was, next)
    ensures var inPlace, rebuilt := RunSql(db, false, InPlaceBody(was, next)),
      RunSql(db, false, RebuildBody(was, next));
      && inPlace.Some? && rebuilt.Some? && next.name in inPlace.value && next.name in rebuilt.value
      && inPlace.value[next.name].(fks := map[]) == rebuilt.value[next.name].(fks := map[])
      && rebuilt.value[next.name] == TableOf(Sqlite, next, Carried(next.columns, vals, count), count)
      && (inPlace == rebuilt <==> NoneAffected(db, was, next))
  {
    hide RunSql, TableOf, InPlaceBody, RebuildBody, ColumnsOk, Carried, SoundTable, Fresh, FreshInCase, Shortcut,
      Ordinary, Loaded, OwnRows, NoneBlank, Rebuildable, Bodies, CarryAll, Survivors, Copies, CarryKeys, NoneAffected,
      NamesOfOneCase, NamesOpen, Lower;
    var goal := TableOf(Sqlite, next, Carried(next.columns, vals, count), count);
    InPlaceRuns(was, next, vals, count, db, false);
    RebuildRuns(was, next, vals, count, db);
    RebuiltIsDesign(was, next, vals, count);
    ShortcutParts(was, next);
    ConstraintsSame(was, next);
    SameKeys(was, next, vals, count);
    NamesOfTables(was, next, vals, count);
    OpenNotElsewhere(db, was, next);
    ReferencesDecide(db, was, next, goal);
  }

  lemma OpenNotElsewhere(db: Db, was: TableDesign, next: TableDesign)
    requires NamesOpen(db, was.name, next)
    ensures next.name == was.name || next.name !in db
  {
    hide FreeElsewhere;
    NotElsewhere(db, was, next);
  }

  /**
   Where the shortcut applies but the new name may not be given in place, because
   only its case is new or an index of the table has it, the statements are
   refused; the rebuild, which drops the table first, runs through all the same
   when the columns are in order and the names of the new table are apart.
   */
  lemma RenameDecides(was: TableDesign, next: TableDesign, vals: map<string, seq<Value>>, count: nat, db: Db)
    requires Alterable(was, next, vals, count, db) && Rebuildable(was, next, vals, count, db)
    requires Ordinary(was, next) && OwnRows(was, vals) && ColumnsOk(was, next) && NamesOfOneCase(next)
    ensures RunSql(db, false, RebuildBody(was, next)) ==
      Some(Replacing(db, was.name, TableOf(Sqlite, next, Carried(next.columns, vals, count), count)))
    ensures RunSql(db, false, InPlaceBody(was, next)).Some? <==> RenameOk(was, next)
  {
    hide RunSql, TableOf, InPlaceBody, RebuildBody, ColumnsOk, RenameOk, Carried, SoundTable, Fresh, FreshInCase,
      Shortcut, Ordinary, Loaded, OwnRows, NoneBlank, Rebuildable, Bodies, CarryAll, Survivors, Copies, CarryKeys,
      NamesOfOneCase, NamesOpen, Lower;
    InPlaceRuns(was, next, vals, count, db, false);
    RebuildRuns(was, next, vals, count, db);
    RebuiltIsDesign(was, next, vals, count);
  }

  lemma InPlaceAdds(was: TableDesign, next: TableDesign)
    requires ColumnsOk(was, next)
    ensures AddsOk(next.columns, 0)
  {
  }
}
