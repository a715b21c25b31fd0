/** A design as loaded, altered to itself, gives an empty plan on every engine. */
module DesignUnchanged {
  import opened Prelude
  import opened Engines
  import opened Design
  import opened DesignExec
  import opened DesignParts
  import opened DesignValid
  import opened DesignMoves
  import opened DesignSqlite

  /** Every part's original is its own name. */
  predicate OwnNames<T, B>(k: Kind<T, B>, xs: seq<T>) {
    forall i :: 0 <= i < |xs| ==> k.original(xs[i]) == Some(k.name(xs[i])) && k.same(xs[i], xs[i])
  }

  predicate AsLoaded(d: TableDesign) {
    && NamesDistinct(d.columns)
    && (forall i :: 0 <= i < |d.columns| ==> d.columns[i].original == Some(d.columns[i].name))
    && (forall i :: 0 <= i < |d.indexes| ==> d.indexes[i].original == Some(d.indexes[i].name))
    && (forall i :: 0 <= i < |d.foreignKeys| ==> d.foreignKeys[i].original == Some(d.foreignKeys[i].name))
    && (forall i :: 0 <= i < |d.checks| ==> d.checks[i].original == Some(d.checks[i].name))
    && (forall i :: 0 <= i < |d.triggers| ==> d.triggers[i].original == Some(d.triggers[i].name))
    && (d.originalName.Some? ==> d.originalName.value == d.name)
  }

  // ------------------------------------------------------------------ named parts

  lemma {:induction false} NothingRemoved<T, B>(k: Kind<T, B>, all: seq<T>, i: nat)
    requires OwnNames(k, all) && i <= |all|
    ensures Removed(k, all[i..], all) == []
    decreases |all| - i
  {
    if i < |all| {
      assert all[i..][0] == all[i] && all[i..][1..] == all[i + 1..];
      assert k.original(all[i]) == Some(k.name(all[i])) && k.same(all[i], all[i]);
      assert Kept(k, all, all[i]);
      NothingRemoved(k, all, i + 1);
    }
  }

  lemma {:induction false} NothingAdded<T, B>(k: Kind<T, B>, all: seq<T>, i: nat)
    requires OwnNames(k, all) && i <= |all|
    ensures Added(k, all, all[i..]) == []
    decreases |all| - i
  {
    if i < |all| {
      assert all[i..][0] == all[i] && all[i..][1..] == all[i + 1..];
      assert k.original(all[i]) == Some(k.name(all[i])) && k.same(all[i], all[i]);
      assert Unchanged(k, all, all[i]);
      NothingAdded(k, all, i + 1);
    }
  }

  lemma NoPartChanges<T, B>(k: Kind<T, B>, all: seq<T>)
    requires OwnNames(k, all)
    ensures Removed(k, all, all) == [] && Added(k, all, all) == []
  {
    assert all[0..] == all;
    NothingRemoved(k, all, 0);
    NothingAdded(k, all, 0);
  }

  lemma PartsAreOwn(d: TableDesign)
    requires AsLoaded(d)
    ensures OwnNames(FK, d.foreignKeys) && OwnNames(IX, d.indexes) && OwnNames(CK, d.checks) && OwnNames(TR, d.triggers)
  {
    hide Upper, Lower, Trim;
  }

  lemma NoParts(e: Engine, d: TableDesign)
    requires AsLoaded(d)
    ensures DropParts(e, d, d) == [] && AddParts(e, d, d) == []
  {
    hide AsLoaded, Removed, Added, OwnNames;
    PartsAreOwn(d);
    NoPartChanges(FK, d.foreignKeys);
    NoPartChanges(IX, d.indexes);
    NoPartChanges(CK, d.checks);
    NoPartChanges(TR, d.triggers);
    NoSteps(e);
    assert AddKey(e, d, d) == [];
  }

  lemma NoSteps(e: Engine)
    ensures DropForeignKeys(e, []) + DropIndexes(e, []) + DropChecks(e, []) + DropTriggers([]) == []
    ensures [] + AddChecks([]) + AddIndexes([]) + AddForeignKeys([]) + AddTriggers([]) == []
  {
  }

  // ------------------------------------------------------------------ columns

  predicate OwnColumns(cs: seq<ColumnDef>) {
    NamesDistinct(cs) && forall i :: 0 <= i < |cs| ==> cs[i].original == Some(cs[i].name)
  }

  lemma {:induction false} NothingDropped(e: Engine, cs: seq<ColumnDef>, i: nat)
    requires OwnColumns(cs) && i <= |cs|
    ensures DropColumns(e, cs[i..], cs) == []
    decreases |cs| - i
  {
    if i < |cs| {
      assert cs[i..][0] == cs[i] && cs[i..][1..] == cs[i + 1..];
      assert cs[i].original == Some(cs[i].name);
      assert IsKept(cs, cs[i].name);
      NothingDropped(e, cs, i + 1);
    }
  }

  lemma NoMove(e: Engine, cs: seq<ColumnDef>, pos: nat)
    requires OwnColumns(cs) && pos < |cs|
    ensures MysqlPosition(e, cs, cs, pos) == Anywhere && Lookup(cs, cs[pos].original) == Some(cs[pos])
  {
    assert cs[pos].original == Some(cs[pos].name);
    LookupFinds(cs, pos);
    var k := ColumnAt(cs, cs[pos].name);
    assert k == pos;
    if pos > 0 {
      assert cs[pos - 1].original == Some(cs[pos - 1].name);
    }
  }

  lemma NoAlter(e: Engine, c: ColumnDef)
    requires !e.Sqlite? && !e.Redis?
    ensures AlterOne(e, c, c, Anywhere) == Ok([])
  {
    hide TypeSql, Lower, NonBlank, NonEmpty;
    var none: seq<Step> := [];
    assert none + none == none;
    assert SameDefinition(c, c) && SameType(c, c);
    if e.IsMysqlFamily() {
      assert AlterMysql(c, c, Anywhere) == none;
    } else if e.Mssql? {
      assert CommentSteps(Mssql, c.name, c.comment, c.comment) == none;
      assert AlterMssql(c, c).value == none;
    } else {
      assert CommentSteps(Postgres, c.name, c.comment, c.comment) == none;
      assert AlterPostgres(c, c).value == none + none + none + none + none + none;
      assert AlterPostgres(c, c).value == none;
    }
  }

  lemma {:induction false} NoColumnSteps(e: Engine, cs: seq<ColumnDef>, pos: nat)
    requires !e.Sqlite? && !e.Redis? && OwnColumns(cs) && pos <= |cs|
    ensures AlterColumns(e, cs, cs, pos) == Ok([])
    decreases |cs| - pos
  {
    hide AlterOne, MysqlPosition, OwnColumns, Lookup;
    if pos < |cs| {
      NoMove(e, cs, pos);
      NoAlter(e, cs[pos]);
      NoColumnSteps(e, cs, pos + 1);
      var none: seq<Step> := [];
      assert none + none == none;
    }
  }

  // ------------------------------------------------------------------ the plans

  /** Nothing changed, so nothing is done; a design that is not valid is refused as ever. */
  lemma UnchangedIsEmpty(e: Engine, d: TableDesign)
    requires !e.Sqlite? && !e.Redis? && AsLoaded(d)
    ensures AlterTable(e, d, d) == if Validate(d).Ok? then Ok(Plan([], KeepsConstraints(e))) else Err(Validate(d).error)
  {
    hide Validate, DropParts, AddParts, AlterColumns, DropColumns, NonEmpty;
    assert OwnColumns(d.columns);
    NoParts(e, d);
    NoColumnSteps(e, d.columns, 0);
    assert d.columns[0..] == d.columns;
    NothingDropped(e, d.columns, 0);
    NoTableChange(e, d);
    assert DropKey(e, d, d) == Ok([]);
    assert When(OldName(d, d) != d.name, RenameTable(d.name)) == [];
    var none: seq<Step> := [];
    assert none + none + none + none + none + none + none == none;
  }

  lemma NoTableChange(e: Engine, d: TableDesign)
    ensures TableComment(e, d, d) == []
  {
  }

  lemma {:induction false} OriginalsAreNames(cs: seq<ColumnDef>)
    requires OwnColumns(cs)
    ensures Originals(cs) == NamesOf(cs)
  {
    if cs != [] {
      assert cs[0].original == Some(cs[0].name);
      NamesTail(cs);
      forall i | 0 <= i < |cs[1..]|
        ensures cs[1..][i].original == Some(cs[1..][i].name)
      {
        assert cs[1..][i] == cs[i + 1];
      }
      OriginalsAreNames(cs[1..]);
    }
  }

  lemma {:induction false} AllStillThere(cs: seq<ColumnDef>, kept: seq<string>)
    requires forall i :: 0 <= i < |cs| ==> cs[i].name in kept
    ensures StillThere(cs, kept) == NamesOf(cs)
  {
    if cs != [] {
      forall i | 0 <= i < |cs[1..]|
        ensures cs[1..][i].name in kept
      {
        assert cs[1..][i] == cs[i + 1];
      }
      assert cs[0].name in kept;
      AllStillThere(cs[1..], kept);
    }
  }

  lemma OrderIsKept(d: TableDesign)
    requires OwnColumns(d.columns)
    ensures OrderKept(d, d)
  {
    var cs := d.columns;
    OriginalsAreNames(cs);
    forall i | 0 <= i < |cs|
      ensures cs[i].name in Originals(cs)
    {
      assert NamesOf(cs)[i] == cs[i].name;
    }
    AllStillThere(cs, Originals(cs));
    NoneIsNew(cs);
  }

  lemma NoneIsNew(cs: seq<ColumnDef>)
    requires forall i :: 0 <= i < |cs| ==> cs[i].original == Some(cs[i].name)
    ensures FirstNew(cs) == |cs|
  {
  }

  lemma ColumnsAreSimple(d: TableDesign)
    requires OwnColumns(d.columns)
    ensures SimpleColumns(d, d)
  {
    hide Lower, TypeSql;
    forall i | 0 <= i < |d.columns|
      ensures SimpleColumn(d.columns, d.columns[i])
    {
      assert d.columns[i].original == Some(d.columns[i].name);
      LookupFinds(d.columns, i);
    }
  }

  lemma StructureIsSame(d: TableDesign)
    ensures NoStructureChange(d, d)
  {
    hide Upper;
  }

  lemma {:induction false} NoAddOrRename(cs: seq<ColumnDef>)
    requires forall i :: 0 <= i < |cs| ==> cs[i].original == Some(cs[i].name)
    ensures AddOrRename(cs) == []
  {
    if cs != [] {
      assert cs[0].original == Some(cs[0].name);
      forall i | 0 <= i < |cs[1..]|
        ensures cs[1..][i].original == Some(cs[1..][i].name)
      {
        assert cs[1..][i] == cs[i + 1];
      }
      NoAddOrRename(cs[1..]);
    }
  }

  /** SQLite takes the shortcut, and it is empty. */
  lemma SqliteUnchangedIsEmpty(d: TableDesign)
    requires AsLoaded(d)
    ensures AlterSqlite(d, d) == if Validate(d).Ok? then Ok(InPlace([])) else Err(Validate(d).error)
  {
    hide Validate, SimpleColumns, OrderKept, NoStructureChange, DropColumns, AddOrRename, Removed, Added, OwnNames;
    assert OwnColumns(d.columns);
    ColumnsAreSimple(d);
    OrderIsKept(d);
    StructureIsSame(d);
    PartsAreOwn(d);
    NoPartChanges(IX, d.indexes);
    NoPartChanges(TR, d.triggers);
    assert d.columns[0..] == d.columns;
    NothingDropped(Sqlite, d.columns, 0);
    NoAddOrRename(d.columns);
    NoSqliteSteps();
    assert InPlaceSteps(d, d) == [];
    assert On(d.name, []) == [];
    assert InPlaceBody(d, d) == [];
  }

  lemma NoSqliteSteps()
    ensures [] + [] + DropIndexes(Sqlite, []) + AddIndexes([]) + DropTriggers([]) + AddTriggerTexts([]) == []
  {
  }
}
