/** SQLite's plan grown statement by statement, tied to what `DesignSqlite` says of it. */
module DesignBuildSqlite {
  import opened Prelude
  import opened Engines
  import opened Design
  import opened DesignSqlite
  import opened DesignBuild
  import DesignInPlace

  method AddOrRenameLoop(cs: seq<ColumnDef>, out: seq<Step>) returns (r: seq<Step>)
    ensures r == out + AddOrRename(cs)
  {
    hide AddOrRename;
    r := out;
    var i := 0;
    assert cs[0..] == cs;
    while i < |cs|
      invariant 0 <= i <= |cs|
      invariant out + AddOrRename(cs) == r + AddOrRename(cs[i..])
    {
      var c := cs[i];
      DesignInPlace.AddOrRenameCons(cs, i);
      DesignInPlace.StepOf(c);
      if c.original.None? {
        r := r + [AddColumn(c, Anywhere)];
      } else if c.original.value != c.name {
        r := r + [RenameColumn(c.original.value, c.name)];
      }
      i := i + 1;
    }
    assert cs[i..] == [];
    NoColumnsLeft();
  }

  lemma NoColumnsLeft()
    ensures AddOrRename([]) == []
  {
  }

  /** In place every added trigger's text is sent. */
  method TriggerTextLoop(olds: seq<TriggerDef>, news: seq<TriggerDef>, out: seq<Step>) returns (r: seq<Step>)
    ensures r == out + AddTriggerTexts(Added(TR, olds, news))
  {
    hide Unchanged;
    r := out;
    var i := 0;
    while i < |news|
      invariant 0 <= i <= |news|
      invariant out + AddTriggerTexts(Added(TR, olds, news)) == r + AddTriggerTexts(Added(TR, olds, news[i..]))
    {
      assert news[i..][0] == news[i] && news[i..][1..] == news[i + 1..];
      ghost var rest := Added(TR, olds, news[i + 1..]);
      if !Unchanged(TR, olds, news[i]) {
        assert ([news[i]] + rest)[1..] == rest;
        r := r + [AddTrigger(news[i])];
      } else {
        assert [] + rest == rest;
      }
      i := i + 1;
    }
    assert news[i..] == [];
  }

  /** The steps, sent to one table. */
  method OnLoop(table: string, steps: seq<Step>, out: seq<Sql>) returns (r: seq<Sql>)
    ensures r == out + On(table, steps)
  {
    r := out;
    var i := 0;
    while i < |steps|
      invariant 0 <= i <= |steps|
      invariant out + On(table, steps) == r + On(table, steps[i..])
    {
      assert steps[i..][0] == steps[i] && steps[i..][1..] == steps[i + 1..];
      r := r + [OnTable(table, steps[i])];
      i := i + 1;
    }
    assert steps[i..] == [];
  }

  /** Which old column fills which new one. */
  method CopiedLoop(was: seq<ColumnDef>, cs: seq<ColumnDef>) returns (pairs: seq<(string, string)>)
    ensures pairs == CopiedPairs(was, cs)
  {
    hide IsCopied;
    pairs := [];
    var i := 0;
    while i < |cs|
      invariant 0 <= i <= |cs|
      invariant CopiedPairs(was, cs) == pairs + CopiedPairs(was, cs[i..])
    {
      assert cs[i..][0] == cs[i] && cs[i..][1..] == cs[i + 1..];
      if IsCopied(was, cs[i]) {
        OriginOfCopied(was, cs[i]);
        pairs := pairs + [(cs[i].original.value, cs[i].name)];
      }
      i := i + 1;
    }
    assert cs[i..] == [];
  }

  lemma OriginOfCopied(was: seq<ColumnDef>, n: ColumnDef)
    requires IsCopied(was, n)
    ensures n.original.Some?
  {
  }

  /** The shortcut when it applies, the rebuild when it does not. */
  method AlterLite(was: TableDesign, next: TableDesign) returns (r: Result<SqlitePlan, DesignError>)
    ensures r == AlterSqlite(was, next)
  {
    hide Validate, Shortcut, DropColumns, AddOrRename, DropIndexes, AddIndexes, DropTriggers, AddTriggerTexts, Removed,
      Added, On, CopiedPairs, AddTriggers, Shape, TempName;
    var valid := Check(next);
    if valid.Err? {
      return Err(valid.error);
    }
    var name := OldName(was, next);
    if Shortcut(was, next) {
      var out: seq<Sql> := if name != next.name then [RenameTo(name, next.name)] else [];
      var steps: seq<Step> := DropColumnLoop(Sqlite, was.columns, next.columns, []);
      steps := AddOrRenameLoop(next.columns, steps);
      steps := DropIndexLoop(Sqlite, was.indexes, next.indexes, steps);
      steps := AddIndexLoop(was.indexes, next.indexes, steps);
      steps := DropTriggerLoop(was.triggers, next.triggers, steps);
      steps := TriggerTextLoop(was.triggers, next.triggers, steps);
      assert [] + DropColumns(Sqlite, was.columns, next.columns) == DropColumns(Sqlite, was.columns, next.columns);
      assert steps == InPlaceSteps(was, next);
      out := OnLoop(next.name, steps, out);
      return Ok(InPlace(out));
    }
    var shape := Check(Shape(next));
    if shape.Err? {
      return Err(shape.error);
    }
    var out: seq<Sql> := [Create(Shape(next))];
    var pairs := CopiedLoop(was.columns, next.columns);
    if pairs != [] {
      out := out + [Copy(name, TempName(next), pairs)];
    }
    out := out + [DropTable(name), RenameTo(TempName(next), next.name)];
    out := OnLoop(next.name, AddIndexes(next.indexes) + AddTriggers(next.triggers), out);
    out := out + [CheckForeignKeys];
    RebuildIs(was, next, pairs, out);
    return Ok(Rebuild(out));
  }

  lemma RebuildIs(was: TableDesign, next: TableDesign, pairs: seq<(string, string)>, out: seq<Sql>)
    requires pairs == CopiedPairs(was.columns, next.columns)
    requires var copy := if pairs == [] then [] else [Copy(OldName(was, next), TempName(next), pairs)];
      out == [Create(Shape(next))] + copy + [DropTable(OldName(was, next)), RenameTo(TempName(next), next.name)]
             + On(next.name, AddIndexes(next.indexes) + AddTriggers(next.triggers)) + [CheckForeignKeys]
    ensures out == RebuildBody(was, next)
  {
    hide CopiedPairs, On, AddIndexes, AddTriggers, Shape, TempName;
  }
}
