/**
 The designer's loops: validation, and the plan grown statement by statement, each
 tied to what `Design` says of it.
 */
module DesignBuild {
  import opened Prelude
  import opened Engines
  import opened Design

  // ------------------------------------------------------------------ validation

  /** Column by column, remembering the names seen; then the key. */
  method Check(t: TableDesign) returns (r: Result<(), DesignError>)
    ensures r == Validate(t)
  {
    if IsBlank(t.name) {
      return Err(NoTableName);
    }
    if t.columns == [] {
      return Err(NoColumns);
    }
    var seen: set<string> := {};
    var i := 0;
    while i < |t.columns|
      invariant 0 <= i <= |t.columns|
      invariant ValidateColumns(t.columns, {}) == ValidateColumns(t.columns[i..], seen)
    {
      var c := t.columns[i];
      assert t.columns[i..][0] == c && t.columns[i..][1..] == t.columns[i + 1..];
      if IsBlank(c.name) {
        return Err(NoColumnName);
      }
      if IsBlank(c.dataType) && c.generated.None? {
        return Err(NoColumnType);
      }
      if Lower(c.name) in seen {
        return Err(DuplicateColumn);
      }
      seen := seen + {Lower(c.name)};
      i := i + 1;
    }
    assert t.columns[i..] == [];
    i := 0;
    while i < |t.primaryKey|
      invariant 0 <= i <= |t.primaryKey|
      invariant forall j :: 0 <= j < i ==> IsColumn(t, t.primaryKey[j])
    {
      if !IsColumn(t, t.primaryKey[i]) {
        return Err(KeyNotAColumn);
      }
      i := i + 1;
    }
    return Ok(());
  }

  // ------------------------------------------------------------------ what is dropped

  lemma DropKeyCons(e: Engine, x: ForeignKeyDef, rest: seq<ForeignKeyDef>)
    ensures DropForeignKeys(e, [x] + rest) ==
      [if e.IsMysqlFamily() then DropForeignKey(x.name) else DropConstraint(x.name)] + DropForeignKeys(e, rest)
  {
    assert ([x] + rest)[1..] == rest;
  }

  lemma NoKeyDrops(e: Engine)
    ensures DropForeignKeys(e, []) == []
  {
  }

  method DropForeignKeyLoop(e: Engine, olds: seq<ForeignKeyDef>, news: seq<ForeignKeyDef>,
      out: seq<Step>) returns (r: seq<Step>)
    ensures r == out + DropForeignKeys(e, Removed(FK, olds, news))
  {
    hide Kept, DropForeignKeys;
    r := out;
    var i := 0;
    while i < |olds|
      invariant 0 <= i <= |olds|
      invariant out + DropForeignKeys(e, Removed(FK, olds, news)) ==
        r + DropForeignKeys(e, Removed(FK, olds[i..], news))
    {
      assert olds[i..][0] == olds[i] && olds[i..][1..] == olds[i + 1..];
      ghost var rest := Removed(FK, olds[i + 1..], news);
      if !Kept(FK, news, olds[i]) {
        DropKeyCons(e, olds[i], rest);
        r := r + [if e.IsMysqlFamily() then DropForeignKey(olds[i].name) else DropConstraint(olds[i].name)];
      } else {
        assert [] + rest == rest;
      }
      i := i + 1;
    }
    assert olds[i..] == [];
    NoKeyDrops(e);
  }

  lemma DropIndexCons(e: Engine, x: IndexDef, rest: seq<IndexDef>)
    ensures DropIndexes(e, [x] + rest) == [DropIndexStep(e, x)] + DropIndexes(e, rest)
  {
    assert ([x] + rest)[1..] == rest;
  }

  lemma NoIndexDrops(e: Engine)
    ensures DropIndexes(e, []) == []
  {
  }

  method DropIndexLoop(e: Engine, olds: seq<IndexDef>, news: seq<IndexDef>, out: seq<Step>) returns (r: seq<Step>)
    ensures r == out + DropIndexes(e, Removed(IX, olds, news))
  {
    hide Kept, DropIndexes, DropIndexStep;
    r := out;
    var i := 0;
    while i < |olds|
      invariant 0 <= i <= |olds|
      invariant out + DropIndexes(e, Removed(IX, olds, news)) == r + DropIndexes(e, Removed(IX, olds[i..], news))
    {
      assert olds[i..][0] == olds[i] && olds[i..][1..] == olds[i + 1..];
      ghost var rest := Removed(IX, olds[i + 1..], news);
      if !Kept(IX, news, olds[i]) {
        DropIndexCons(e, olds[i], rest);
        r := r + [DropIndexStep(e, olds[i])];
      } else {
        assert [] + rest == rest;
      }
      i := i + 1;
    }
    assert olds[i..] == [];
    NoIndexDrops(e);
  }

  method DropCheckLoop(e: Engine, olds: seq<CheckDef>, news: seq<CheckDef>, out: seq<Step>) returns (r: seq<Step>)
    ensures r == out + DropChecks(e, Removed(CK, olds, news))
  {
    hide Kept;
    r := out;
    var i := 0;
    while i < |olds|
      invariant 0 <= i <= |olds|
      invariant out + DropChecks(e, Removed(CK, olds, news)) == r + DropChecks(e, Removed(CK, olds[i..], news))
    {
      assert olds[i..][0] == olds[i] && olds[i..][1..] == olds[i + 1..];
      ghost var rest := Removed(CK, olds[i + 1..], news);
      if !Kept(CK, news, olds[i]) {
        assert ([olds[i]] + rest)[1..] == rest;
        r := r + [if e.Mysql? then DropCheck(olds[i].name) else DropConstraint(olds[i].name)];
      } else {
        assert [] + rest == rest;
      }
      i := i + 1;
    }
    assert olds[i..] == [];
  }

  method DropTriggerLoop(olds: seq<TriggerDef>, news: seq<TriggerDef>, out: seq<Step>) returns (r: seq<Step>)
    ensures r == out + DropTriggers(Removed(TR, olds, news))
  {
    hide Kept;
    r := out;
    var i := 0;
    while i < |olds|
      invariant 0 <= i <= |olds|
      invariant out + DropTriggers(Removed(TR, olds, news)) == r + DropTriggers(Removed(TR, olds[i..], news))
    {
      assert olds[i..][0] == olds[i] && olds[i..][1..] == olds[i + 1..];
      ghost var rest := Removed(TR, olds[i + 1..], news);
      if !Kept(TR, news, olds[i]) {
        assert ([olds[i]] + rest)[1..] == rest;
        r := r + [DropTrigger(olds[i].name)];
      } else {
        assert [] + rest == rest;
      }
      i := i + 1;
    }
    assert olds[i..] == [];
  }

  method DropColumnLoop(e: Engine, olds: seq<ColumnDef>, news: seq<ColumnDef>, out: seq<Step>) returns (r: seq<Step>)
    ensures r == out + DropColumns(e, olds, news)
  {
    hide IsKept;
    r := out;
    var i := 0;
    while i < |olds|
      invariant 0 <= i <= |olds|
      invariant out + DropColumns(e, olds, news) == r + DropColumns(e, olds[i..], news)
    {
      var c := olds[i];
      assert olds[i..][0] == c && olds[i..][1..] == olds[i + 1..];
      ghost var rest := DropColumns(e, olds[i + 1..], news);
      if !IsKept(news, c.name) {
        if e.Mssql? && c.defaultConstraint.Some? {
          r := r + [DropDefault(c.defaultConstraint.value)];
        }
        r := r + [DropColumn(c.name)];
      } else {
        assert [] + rest == rest;
      }
      i := i + 1;
    }
    assert olds[i..] == [];
  }

  // ------------------------------------------------------------------ the columns

  lemma AlterColumnsFrom(e: Engine, was: seq<ColumnDef>, news: seq<ColumnDef>, pos: nat)
    requires pos < |news|
    ensures AlterColumns(e, was, news, pos) ==
      match ColumnSteps(e, was, news, pos)
      case Err(x) => Err(x)
      case Ok(first) =>
        match AlterColumns(e, was, news, pos + 1)
        case Err(x) => Err(x)
        case Ok(rest) => Ok(first + rest)
  {
    hide ColumnSteps;
  }

  /** Position by position; the first column that cannot be altered in place ends it. */
  method AlterColumnLoop(e: Engine, was: seq<ColumnDef>, news: seq<ColumnDef>,
      out: seq<Step>) returns (r: Result<seq<Step>, DesignError>)
    ensures r == match AlterColumns(e, was, news, 0) case Err(x) => Err(x) case Ok(steps) => Ok(out + steps)
  {
    hide ColumnSteps;
    var grown := out;
    var pos := 0;
    while pos < |news|
      invariant 0 <= pos <= |news|
      invariant AlterColumns(e, was, news, 0).Ok? <==> AlterColumns(e, was, news, pos).Ok?
      invariant AlterColumns(e, was, news, 0).Ok? ==>
        out + AlterColumns(e, was, news, 0).value == grown + AlterColumns(e, was, news, pos).value
      invariant AlterColumns(e, was, news, 0).Err? ==> AlterColumns(e, was, news, 0) == AlterColumns(e, was, news, pos)
    {
      AlterColumnsFrom(e, was, news, pos);
      var steps := ColumnSteps(e, was, news, pos);
      if steps.Err? {
        return Err(steps.error);
      }
      grown := grown + steps.value;
      pos := pos + 1;
    }
    var none: seq<Step> := [];
    assert grown + none == grown && AlterColumns(e, was, news, pos) == Ok(none);
    return Ok(grown);
  }

  // ------------------------------------------------------------------ what is added

  method AddCheckLoop(olds: seq<CheckDef>, news: seq<CheckDef>, out: seq<Step>) returns (r: seq<Step>)
    ensures r == out + AddChecks(Added(CK, olds, news))
  {
    hide Unchanged;
    r := out;
    var i := 0;
    while i < |news|
      invariant 0 <= i <= |news|
      invariant out + AddChecks(Added(CK, olds, news)) == r + AddChecks(Added(CK, olds, news[i..]))
    {
      assert news[i..][0] == news[i] && news[i..][1..] == news[i + 1..];
      ghost var rest := Added(CK, olds, news[i + 1..]);
      if !Unchanged(CK, olds, news[i]) {
        assert ([news[i]] + rest)[1..] == rest;
        r := r + [AddCheck(news[i])];
      } else {
        assert [] + rest == rest;
      }
      i := i + 1;
    }
    assert news[i..] == [];
  }

  method AddIndexLoop(olds: seq<IndexDef>, news: seq<IndexDef>, out: seq<Step>) returns (r: seq<Step>)
    ensures r == out + AddIndexes(Added(IX, olds, news))
  {
    hide Unchanged;
    r := out;
    var i := 0;
    while i < |news|
      invariant 0 <= i <= |news|
      invariant out + AddIndexes(Added(IX, olds, news)) == r + AddIndexes(Added(IX, olds, news[i..]))
    {
      assert news[i..][0] == news[i] && news[i..][1..] == news[i + 1..];
      ghost var rest := Added(IX, olds, news[i + 1..]);
      if !Unchanged(IX, olds, news[i]) {
        assert ([news[i]] + rest)[1..] == rest;
        r := r + [AddIndex(news[i])];
      } else {
        assert [] + rest == rest;
      }
      i := i + 1;
    }
    assert news[i..] == [];
  }

  method AddForeignKeyLoop(olds: seq<ForeignKeyDef>, news: seq<ForeignKeyDef>, out: seq<Step>) returns (r: seq<Step>)
    ensures r == out + AddForeignKeys(Added(FK, olds, news))
  {
    hide Unchanged;
    r := out;
    var i := 0;
    while i < |news|
      invariant 0 <= i <= |news|
      invariant out + AddForeignKeys(Added(FK, olds, news)) == r + AddForeignKeys(Added(FK, olds, news[i..]))
    {
      assert news[i..][0] == news[i] && news[i..][1..] == news[i + 1..];
      ghost var rest := Added(FK, olds, news[i + 1..]);
      if !Unchanged(FK, olds, news[i]) {
        assert ([news[i]] + rest)[1..] == rest;
        r := r + [AddForeignKey(news[i])];
      } else {
        assert [] + rest == rest;
      }
      i := i + 1;
    }
    assert news[i..] == [];
  }

  lemma AddTriggersFrom(olds: seq<TriggerDef>, news: seq<TriggerDef>, i: nat)
    requires i < |news|
    ensures AddTriggers(Added(TR, olds, news[i..])) ==
      When(!Unchanged(TR, olds, news[i]) && !IsBlank(news[i].definition), AddTrigger(news[i]))
        + AddTriggers(Added(TR, olds, news[i + 1..]))
  {
    hide Unchanged, IsBlank;
    assert news[i..][0] == news[i] && news[i..][1..] == news[i + 1..];
    var rest := Added(TR, olds, news[i + 1..]);
    assert ([news[i]] + rest)[1..] == rest && [] + rest == rest && [] + AddTriggers(rest) == AddTriggers(rest);
  }

  method AddTriggerLoop(olds: seq<TriggerDef>, news: seq<TriggerDef>, out: seq<Step>) returns (r: seq<Step>)
    ensures r == out + AddTriggers(Added(TR, olds, news))
  {
    hide Unchanged, IsBlank, AddTriggers, Added;
    r := out;
    var i := 0;
    assert news[0..] == news;
    while i < |news|
      invariant 0 <= i <= |news|
      invariant out + AddTriggers(Added(TR, olds, news)) == r + AddTriggers(Added(TR, olds, news[i..]))
    {
      AddTriggersFrom(olds, news, i);
      if !Unchanged(TR, olds, news[i]) && !IsBlank(news[i].definition) {
        r := r + [AddTrigger(news[i])];
      }
      i := i + 1;
    }
    assert news[i..] == [];
    NoTriggerSteps(olds);
  }

  lemma NoTriggerSteps(olds: seq<TriggerDef>)
    ensures AddTriggers(Added(TR, olds, [])) == []
  {
  }

  // ------------------------------------------------------------------ the plan

  /** Step list after step list, or phase by phase: the same plan. */
  lemma PlanIs(e: Engine, was: TableDesign, next: TableDesign, out: seq<Step>)
    requires Validate(next).Ok? && DropKey(e, was, next).Ok? && AlterColumns(e, was.columns, next.columns, 0).Ok?
    requires out ==
      When(OldName(was, next) != next.name, RenameTable(next.name))
      + DropForeignKeys(e, Removed(FK, was.foreignKeys, next.foreignKeys))
        + DropIndexes(e, Removed(IX, was.indexes, next.indexes))
      + DropChecks(e, Removed(CK, was.checks, next.checks)) + DropTriggers(Removed(TR, was.triggers, next.triggers))
      + DropKey(e, was, next).value + DropColumns(e, was.columns, next.columns)
        + AlterColumns(e, was.columns, next.columns, 0).value
      + AddKey(e, was, next) + AddChecks(Added(CK, was.checks, next.checks))
        + AddIndexes(Added(IX, was.indexes, next.indexes))
      + AddForeignKeys(Added(FK, was.foreignKeys, next.foreignKeys))
        + AddTriggers(Added(TR, was.triggers, next.triggers))
      + TableComment(e, was, next)
    ensures AlterTable(e, was, next) == Ok(Plan(out, KeepsConstraints(e)))
  {
    hide Validate, AlterColumns, DropForeignKeys, DropIndexes, DropChecks, DropTriggers, DropColumns, When, OldName,
      AddChecks, AddIndexes, AddForeignKeys, AddTriggers, Removed, Added, TableComment, AddKey, DropKey;
    var a, b, c := DropForeignKeys(e, Removed(FK, was.foreignKeys, next.foreignKeys)),
      DropIndexes(e, Removed(IX, was.indexes, next.indexes)),
      DropChecks(e, Removed(CK, was.checks, next.checks));
    var d := DropTriggers(Removed(TR, was.triggers, next.triggers));
    var z := When(OldName(was, next) != next.name, RenameTable(next.name));
    assert z + a + b + c + d == z + (a + b + c + d);
    var k, f, g := AddKey(e, was, next), AddChecks(Added(CK, was.checks, next.checks)),
      AddIndexes(Added(IX, was.indexes, next.indexes));
    var h, i := AddForeignKeys(Added(FK, was.foreignKeys, next.foreignKeys)),
      AddTriggers(Added(TR, was.triggers, next.triggers));
    var y := z + (a + b + c + d) + DropKey(e, was, next).value + DropColumns(e, was.columns, next.columns)
      + AlterColumns(e, was.columns, next.columns, 0).value;
    assert y + k + f + g + h + i == y + (k + f + g + h + i);
  }

  /** The plan for every engine but SQLite, grown in the order the statements run. */
  method Alter(e: Engine, was: TableDesign, next: TableDesign) returns (r: Result<Plan, DesignError>)
    requires !e.Sqlite?
    ensures r == AlterTable(e, was, next)
  {
    hide Validate, ColumnSteps, Kept, Unchanged, AlterColumns, DropForeignKeys, DropIndexes, DropChecks, DropTriggers,
      DropColumns,
      AddChecks, AddIndexes, AddForeignKeys, AddTriggers, Removed, Added, TableComment, AddKey, DropKey, OptionsChange;
    var valid := Check(next);
    if valid.Err? {
      return Err(valid.error);
    }
    var out := When(OldName(was, next) != next.name, RenameTable(next.name));
    out := DropForeignKeyLoop(e, was.foreignKeys, next.foreignKeys, out);
    out := DropIndexLoop(e, was.indexes, next.indexes, out);
    out := DropCheckLoop(e, was.checks, next.checks, out);
    out := DropTriggerLoop(was.triggers, next.triggers, out);
    var dropKey := DropKey(e, was, next);
    if dropKey.Err? {
      return Err(dropKey.error);
    }
    out := out + dropKey.value;
    out := DropColumnLoop(e, was.columns, next.columns, out);
    var altered := AlterColumnLoop(e, was.columns, next.columns, out);
    if altered.Err? {
      return Err(altered.error);
    }
    out := altered.value + AddKey(e, was, next);
    out := AddCheckLoop(was.checks, next.checks, out);
    out := AddIndexLoop(was.indexes, next.indexes, out);
    out := AddForeignKeyLoop(was.foreignKeys, next.foreignKeys, out);
    out := AddTriggerLoop(was.triggers, next.triggers, out);
    out := out + TableComment(e, was, next);
    PlanIs(e, was, next, out);
    return Ok(Plan(out, KeepsConstraints(e)));
  }
}
